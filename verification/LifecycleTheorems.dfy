/**
 What the lifecycle promises over every run: COMPLETE means proven flat, the realised
 loss is bounded by the two limits, no identity is ever reused, and a crash between the
 two completion transactions changes nothing.
 */
module LifecycleTheorems {
  import opened Wrappers
  import opened VenueEvidence
  import opened Intents
  import opened LifecycleSpec
  import opened LifecycleInvariant

  // ----- What COMPLETE means -----

  /** The fills that carry this external id. */
  function FillsOf(fills: seq<Fill>, externalId: string): seq<Fill> {
    if fills == [] then []
    else (if fills[0].externalId == externalId then [fills[0]] else []) + FillsOf(fills[1..], externalId)
  }

  /** Every fill respects the limit, the fee rate and the size of its order. */
  ghost predicate WithinLimit(intent: Intent, fills: seq<Fill>) {
    && intent.side.Some?
    && intent.payload.Some?
    && forall f <- fills ::
      && f.side == intent.side && f.qty > 0.0 && f.value == f.price * f.qty
      && f.fee == f.value * intent.payload.value.fee.value
      && (if intent.side.value.Buy? then f.price <= intent.price.value else f.price >= intent.price.value)
  }

  ghost predicate FullyFilled(intent: Intent, ev: Evidence) {
    var fills := FillsOf(ev.fills, intent.externalId);
    fills != [] && WithinLimit(intent, fills) && FillQty(fills) == intent.qty.value
  }

  /** All fills belong to the entry or to the close, which are filled in full on opposite sides. */
  ghost predicate ClosedOut(entry: Intent, close: Intent, ev: Evidence) {
    && entry.kind.Entry? && close.kind.Close?
    && entry.externalId != close.externalId
    && entry.side.Some? && close.side == Some(Opposite(entry.side.value))
    && entry.qty.value == close.qty.value
    && FullyFilled(entry, ev) && FullyFilled(close, ev)
    && forall f <- ev.fills :: f.externalId == entry.externalId || f.externalId == close.externalId
  }

  ghost predicate ProvenFlat(rows: seq<Intent>, ev: Evidence) {
    && ev.openOrders == [] && ev.positions == []
    && (forall row <- rows :: ev.EveryClockPast(row.expiryMs))
    && NoneOutstanding(rows)
    && SignedQty(ev.fills) == 0.0
    && ((CancelledFlat(rows) && ev.fills == [])
      || (HeldThenClose(rows, CloseReconciled) && ClosedOut(rows[0], rows[|rows| - 1], ev)))
  }

  /** The normalizer guarantees this of the fills it hands over. */
  ghost predicate UniqueFillIds(fills: seq<Fill>) {
    forall i, j | 0 <= i < j < |fills| :: fills[i].id != fills[j].id
  }

  lemma {:induction false} MaxExpiryBounds(rows: seq<Intent>)
    ensures forall row <- rows :: row.expiryMs <= MaxExpiry(rows)
  {
    if |rows| > 1 {
      MaxExpiryBounds(rows[1..]);
      assert forall row <- rows :: row == rows[0] || row in rows[1..];
    }
  }

  lemma {:induction false} MatchingFillsMembers(fills: seq<Fill>, orderId: int)
    ensures forall f :: f in MatchingFills(fills, orderId) <==> f in fills && f.orderId == orderId
  {
    if fills != [] {
      MatchingFillsMembers(fills[1..], orderId);
      assert fills == [fills[0]] + fills[1..];
    }
  }

  lemma {:induction false} NoFillsError(intent: Intent, order: Order, rate: real, fills: seq<Fill>)
    requires FillsError(intent, order, rate, fills).None?
    ensures forall f <- fills :: FillBinds(intent, order, f) && FillArithmetic(intent, rate, f)
  {
    if fills != [] {
      NoFillsError(intent, order, rate, fills[1..]);
      assert fills == [fills[0]] + fills[1..];
    }
  }

  /** The last history row of an order that ends filled in full. */
  ghost predicate FinalOrder(row: Intent, order: Order, ev: Evidence) {
    && ValidatedFills(row, order, ev).Ok?
    && var fills := MatchingFills(ev.fills, order.id);
      fills != [] && FillQty(fills) == row.qty.value && ValidatedFills(row, order, ev).value == fills
  }

  lemma {:induction false} FinalFillIdsMeans(rows: seq<Intent>, ev: Evidence)
    requires FinalFillIds(rows, ev).Ok?
    ensures forall row <- rows | row.IsOrder() ::
        var order := LastOrder(ev.orderHistory, row.externalId);
        order.Some? && FinalOrder(row, order.value, ev)
    ensures forall id <- FinalFillIds(rows, ev).value ::
        exists row <- rows :: row.IsOrder() && id in FillIds(MatchingFills(ev.fills, LastOrder(ev.orderHistory, row.externalId).value.id))
  {
    if rows != [] {
      hide ValidatedFills;
      FinalFillIdsMeans(rows[1..], ev);
      assert rows == [rows[0]] + rows[1..];
      if rows[0].IsOrder() {
        var fills := ValidatedFills(rows[0], LastOrder(ev.orderHistory, rows[0].externalId).value, ev).value;
        assert fills == MatchingFills(ev.fills, LastOrder(ev.orderHistory, rows[0].externalId).value.id) by { ValidatedMatches(rows[0], ev); }
      }
    }
  }

  lemma ValidatedMatches(row: Intent, ev: Evidence)
    ensures forall order :: ValidatedFills(row, order, ev).Ok? ==>
      && ValidatedFills(row, order, ev).value == MatchingFills(ev.fills, order.id)
      && OrderBinds(row, order)
      && FillsError(row, order, row.payload.value.fee.value, MatchingFills(ev.fills, order.id)).None?
  {
  }

  lemma {:induction false} FillsOfMembers(fills: seq<Fill>, externalId: string)
    ensures forall f :: f in FillsOf(fills, externalId) <==> f in fills && f.externalId == externalId
  {
    if fills != [] {
      FillsOfMembers(fills[1..], externalId);
      assert fills == [fills[0]] + fills[1..];
    }
  }

  lemma {:induction false} FillsOfIsMatching(fills: seq<Fill>, externalId: string, orderId: int)
    requires forall f <- fills :: f.externalId == externalId <==> f.orderId == orderId
    ensures FillsOf(fills, externalId) == MatchingFills(fills, orderId)
  {
    if fills != [] {
      FillsOfIsMatching(fills[1..], externalId, orderId);
    }
  }

  /** The order that the last history row under a row's external id names. */
  function FinalOrderId(row: Intent, ev: Evidence): int {
    match LastOrder(ev.orderHistory, row.externalId)
    case Some(order) => order.id
    case None => 0
  }

  /** With unique ids, an accounted id is an accounted fill. */
  lemma EveryFillAccounted(rows: seq<Intent>, ev: Evidence, f: Fill)
    requires FinalIdentities(rows, ev).Ok? && UniqueFillIds(ev.fills) && f in ev.fills
    ensures exists row <- rows :: row.IsOrder() && f.externalId == row.externalId && f.orderId == FinalOrderId(row, ev)
  {
    FinalFillIdsMeans(rows, ev);
    assert f.id in FinalFillIds(rows, ev).value;
    hide FinalIdentities, FinalFillIds, ValidatedFills;
    var row :| row in rows && row.IsOrder()
      && f.id in FillIds(MatchingFills(ev.fills, LastOrder(ev.orderHistory, row.externalId).value.id));
    CountedFillNamesRow(row, LastOrder(ev.orderHistory, row.externalId).value, ev, f);
  }

  lemma CountedFillNamesRow(row: Intent, order: Order, ev: Evidence, f: Fill)
    requires ValidatedFills(row, order, ev).Ok? && UniqueFillIds(ev.fills) && f in ev.fills
    requires f.id in FillIds(MatchingFills(ev.fills, order.id))
    ensures f.externalId == row.externalId && f.orderId == order.id
  {
    MatchingFillsMembers(ev.fills, order.id);
    ValidatedMatches(row, ev);
    NoFillsError(row, order, row.payload.value.fee.value, MatchingFills(ev.fills, order.id));
    hide ValidatedFills, MatchingFills;
    var g :| g in MatchingFills(ev.fills, order.id) && g.id == f.id;
    assert g == f;
  }

  /** Distinct rows have distinct external ids, so the id of a fill names its row. */
  lemma NamedFillMatches(rows: seq<Intent>, ev: Evidence, row: Intent, f: Fill)
    requires FinalIdentities(rows, ev).Ok? && UniqueFillIds(ev.fills) && f in ev.fills && Distinct(rows)
    requires row in rows && f.externalId == row.externalId
    ensures f.orderId == FinalOrderId(row, ev)
  {
    EveryFillAccounted(rows, ev, f);
  }

  lemma NamesExactly(rows: seq<Intent>, ev: Evidence, row: Intent)
    requires FinalIdentities(rows, ev).Ok? && UniqueFillIds(ev.fills) && Distinct(rows)
    requires row in rows && row.IsOrder()
    ensures forall f <- ev.fills :: f.externalId == row.externalId <==> f.orderId == FinalOrderId(row, ev)
  {
    FinalFillIdsMeans(rows, ev);
    var order := LastOrder(ev.orderHistory, row.externalId).value;
    ValidatedMatches(row, ev);
    NoFillsError(row, order, row.payload.value.fee.value, MatchingFills(ev.fills, order.id));
    MatchingFillsMembers(ev.fills, order.id);
    forall f <- ev.fills ensures f.externalId == row.externalId <==> f.orderId == order.id {
      if f.externalId == row.externalId {
        NamedFillMatches(rows, ev, row, f);
      }
    }
  }

  /** A persisted order owns exactly the fills under its external id. */
  lemma OwnsItsFills(rows: seq<Intent>, ev: Evidence, row: Intent)
    requires FinalIdentities(rows, ev).Ok? && UniqueFillIds(ev.fills) && Sound(rows)
    requires row in rows && row.IsOrder()
    ensures FullyFilled(row, ev)
  {
    FinalFillIdsMeans(rows, ev);
    NamesExactly(rows, ev, row);
    hide FinalIdentities;
    var order := LastOrder(ev.orderHistory, row.externalId).value;
    FillsOfIsMatching(ev.fills, row.externalId, order.id);
    FinalOrderFullyFilled(row, order, ev);
  }

  lemma FinalOrderFullyFilled(row: Intent, order: Order, ev: Evidence)
    requires FinalOrder(row, order, ev) && RowOk(row) && row.IsOrder()
    requires FillsOf(ev.fills, row.externalId) == MatchingFills(ev.fills, order.id)
    ensures FullyFilled(row, ev)
  {
    ValidatedMatches(row, ev);
    NoFillsError(row, order, row.payload.value.fee.value, MatchingFills(ev.fills, order.id));
  }

  /** Signed quantity splits along the two external ids. */
  lemma {:induction false} SignedQtySplits(fills: seq<Fill>, entry: Intent, close: Intent)
    requires entry.side.Some? && close.side == Some(Opposite(entry.side.value)) && entry.externalId != close.externalId
    requires forall f <- fills ::
      || (f.externalId == entry.externalId && f.side == entry.side)
      || (f.externalId == close.externalId && f.side == close.side)
    ensures var net := FillQty(FillsOf(fills, entry.externalId)) - FillQty(FillsOf(fills, close.externalId));
      SignedQty(fills) == (if entry.side.value.Buy? then net else -net)
  {
    if fills != [] {
      SignedQtySplits(fills[1..], entry, close);
      assert fills[0] in fills;
      assert forall f <- fills[1..] :: f in fills;
      OneMoreFill(fills, entry.externalId);
      OneMoreFill(fills, close.externalId);
    }
  }

  lemma OneMoreFill(fills: seq<Fill>, externalId: string)
    requires fills != []
    ensures FillQty(FillsOf(fills, externalId))
      == (if fills[0].externalId == externalId then fills[0].qty else 0.0) + FillQty(FillsOf(fills[1..], externalId))
  {
    if fills[0].externalId == externalId {
      assert FillsOf(fills, externalId)[1..] == FillsOf(fills[1..], externalId);
    } else {
      assert FillsOf(fills, externalId) == FillsOf(fills[1..], externalId);
    }
  }

  lemma ClosedOutIsNet(entry: Intent, close: Intent, ev: Evidence)
    requires ClosedOut(entry, close, ev)
    ensures SignedQty(ev.fills) == 0.0
  {
    FillsOfMembers(ev.fills, entry.externalId);
    FillsOfMembers(ev.fills, close.externalId);
    SignedQtySplits(ev.fills, entry, close);
  }

  /** A re-examined cancellation completes only on evidence with nothing in it. */
  lemma CancelCompletion(s: Store, intent: Intent, ev: Evidence)
    requires PlanCancel(s, intent, ev).Ok?
    ensures forall c <- PlanCancel(s, intent, ev).value.commits | c.word.Complete? ::
        && c.rows == s.rows && ev.fills == [] && ev.positions == [] && ev.openOrders == []
        && ev.EveryClockPast(MaxExpiry(s.rows)) && NoneOutstanding(s.rows)
  {
    var target := GetTarget(s, intent).value;
    var order := MatchingOrder(target, ev).1.value;
    var fills := ValidatedFills(target, order, ev).value;
    if order.status.Cancelled? {
      assert PlanCancel(s, intent, ev) == PlanCancelled(s, intent, target, order, fills, ev);
    }
  }

  lemma CancelMeansFlat(s: Store, intent: Intent, ev: Evidence)
    requires Inv(s) && intent in s.rows && intent.IsCancellation() && RouteAllowed(intent, s.word)
    requires PlanCancel(s, intent, ev).Ok?
    ensures forall c <- PlanCancel(s, intent, ev).value.commits | c.word.Complete? :: ProvenFlat(c.rows, ev)
  {
    CancelCompletion(s, intent, ev);
    PlanCancelKeeps(s, intent, ev);
    MaxExpiryBounds(s.rows);
    hide PlanCancel;
    forall c <- PlanCancel(s, intent, ev).value.commits | c.word.Complete? ensures ProvenFlat(c.rows, ev) {
      assert Shape(c.word, c.rows);
    }
  }

  /** The facts a close commits on; the entry it closes has the same size. */
  lemma CloseCompletion(s: Store, intent: Intent, ev: Evidence)
    requires PlanClose(s, intent, ev).Ok?
    ensures forall c <- PlanClose(s, intent, ev).value.commits | c.word.Complete? ::
        && SetStatesTx(s, [(intent.id, CloseReconciled)], Complete) == Ok(c)
        && CloseIsFinal(c.rows, ev)
        && ev.openOrders == [] && ev.positions == []
        && FinalIdentities(s.rows, ev).Ok?
        && GetTarget(s, intent).Ok? && GetTarget(s, intent).value.qty.value == intent.qty.value
  {
    hide CloseIsFinal, ValidatedFills, FinalIdentities;
  }

  lemma RestatedKeepsFullyFilled(row: Intent, state: IntentState, ev: Evidence)
    ensures FullyFilled(row, ev) ==> FullyFilled(row.(state := state), ev)
  {
  }

  lemma CloseMeansClosedOut(s: Store, intent: Intent, ev: Evidence)
    requires Inv(s) && intent in s.rows && intent.kind.Close? && RouteAllowed(intent, s.word)
    requires FinalIdentities(s.rows, ev).Ok? && UniqueFillIds(ev.fills)
    requires s.rows[0].qty.value == intent.qty.value
    ensures ClosedOut(s.rows[0], intent.(state := CloseReconciled), ev)
  {
    hide FinalIdentities, FullyFilled, FinalOrderId;
    var entry := s.rows[0];
    assert Held(s.rows[..|s.rows| - 1]) && intent == s.rows[|s.rows| - 1] by { ShapeBoundsRows(s); }
    assert entry == s.rows[..|s.rows| - 1][0];
    OwnsItsFills(s.rows, ev, entry);
    OwnsItsFills(s.rows, ev, intent);
    RestatedKeepsFullyFilled(intent, CloseReconciled, ev);
    forall f <- ev.fills ensures f.externalId == entry.externalId || f.externalId == intent.externalId {
      EveryFillAccounted(s.rows, ev, f);
      var row :| row in s.rows && row.IsOrder() && f.externalId == row.externalId;
    }
  }

  lemma CloseMeansFlat(s: Store, intent: Intent, ev: Evidence)
    requires Inv(s) && intent in s.rows && intent.kind.Close? && RouteAllowed(intent, s.word)
    requires PlanClose(s, intent, ev).Ok? && UniqueFillIds(ev.fills)
    ensures forall c <- PlanClose(s, intent, ev).value.commits | c.word.Complete? :: ProvenFlat(c.rows, ev)
  {
    CloseCompletion(s, intent, ev);
    TargetIsEntry(s, intent);
    CloseRestated(s, intent, CloseReconciled);
    hide PlanClose, FinalIdentities, ProvenFlat, CloseIsFinal, Inv, RouteAllowed, Sound, HeldThenClose, UniqueFillIds;
    forall c <- PlanClose(s, intent, ev).value.commits | c.word.Complete? ensures ProvenFlat(c.rows, ev) {
      assert c.rows == Restated(s.rows, |s.rows| - 1, CloseReconciled);
      CompletedIsFlat(s, intent, ev);
    }
  }

  lemma CompletedIsFlat(s: Store, intent: Intent, ev: Evidence)
    requires Inv(s) && intent in s.rows && intent.kind.Close? && RouteAllowed(intent, s.word)
    requires FinalIdentities(s.rows, ev).Ok? && UniqueFillIds(ev.fills) && s.rows[0].qty.value == intent.qty.value
    requires ev.openOrders == [] && ev.positions == []
    requires CloseIsFinal(Restated(s.rows, |s.rows| - 1, CloseReconciled), ev)
    ensures ProvenFlat(Restated(s.rows, |s.rows| - 1, CloseReconciled), ev)
  {
    var rows := Restated(s.rows, |s.rows| - 1, CloseReconciled);
    CloseRestated(s, intent, CloseReconciled);
    TargetIsEntry(s, intent);
    CloseMeansClosedOut(s, intent, ev);
    assert rows[0] == s.rows[0] && rows[|rows| - 1] == intent.(state := CloseReconciled);
    ClosedOutIsNet(s.rows[0], intent.(state := CloseReconciled), ev);
    MaxExpiryBounds(rows);
    hide FinalIdentities, Inv, RouteAllowed, ClosedOut, HeldThenClose, CancelledFlat, Sound, UniqueFillIds, GetTarget, Restated;
  }

  lemma EntryNeverCompletes(s: Store, intent: Intent, ev: Evidence)
    requires PlanEntry(s, intent, ev).Ok?
    ensures forall c <- PlanEntry(s, intent, ev).value.commits :: !c.word.Complete?
  {
  }

  lemma PlanMeansFlat(s: Store, intent: Intent, ev: Evidence)
    requires Inv(s) && intent in s.rows && RouteAllowed(intent, s.word) && UniqueFillIds(ev.fills)
    requires PlanFor(s, intent, ev).Ok?
    ensures forall c <- PlanFor(s, intent, ev).value.commits | c.word.Complete? :: ProvenFlat(c.rows, ev)
  {
    hide PlanEntry, PlanCancel, PlanClose, ProvenFlat;
    match intent.kind
    case Entry => EntryNeverCompletes(s, intent, ev);
    case Close => CloseMeansFlat(s, intent, ev);
    case _ => CancelMeansFlat(s, intent, ev);
  }

  lemma ReconcileMeansFlat(s: Store, id: string, ev: Evidence)
    requires Inv(s) && UniqueFillIds(ev.fills)
    ensures forall c <- Reconcile(s, id, ev).commits | c.word.Complete? :: ProvenFlat(c.rows, ev)
  {
    ReconcileCommits(s, id, ev);
    hide Reconcile, PlanFor, ProvenFlat;
    var r := Reconcile(s, id, ev);
    if r.commits != [] && r.result.Ok? {
      PlanMeansFlat(s, Get(s, id).value, ev);
    }
  }

  lemma OthersNeverComplete(s: Store, op: Op)
    requires !op.ReconcileOp?
    ensures forall c <- Commits(s, op) :: !c.word.Complete?
  {
    hide EntryIntent, CancellationIntent, CloseIntent, ClaimGate;
  }

  /** No step but a reconciliation completes the lifecycle, and that only on evidence proven flat. */
  lemma CompletionIsProvenFlat(s: Store, op: Op)
    requires Inv(s) && UniqueFillIds(op.ev.fills)
    ensures forall c <- Commits(s, op) | c.word.Complete? :: op.ReconcileOp? && ProvenFlat(c.rows, op.ev)
  {
    hide ProvenFlat, Reconcile;
    if op.ReconcileOp? {
      ReconcileMeansFlat(s, op.id, op.ev);
    } else {
      OthersNeverComplete(s, op);
    }
  }

  // ----- Absorbing words, failures and growth -----

  lemma TerminalIsAbsorbing(s: Store, op: Op)
    requires s.word.Complete? || s.word.IsHalted()
    ensures Commits(s, op) == []
  {
    hide EntryIntent, CancellationIntent, CloseIntent, Prepare, Claim, Reconcile;
    match op
    case PrepareOrderOp(a, ev) => NothingPrepared(s, EntryIntent(s, a, ev), Flat, EntryPrepared);
    case PrepareCancellationOp(entryId, kind, ev) =>
      NothingPrepared(s, CancellationIntent(s, entryId, kind, ev), EntryAmbiguous, CancelPrepared);
    case PrepareCloseOp(a, ev) => NothingPrepared(s, CloseIntent(s, a, ev), Exposed, ClosePrepared);
    case ClaimOp(id, ev) => NothingClaimed(s, id, ev);
    case ReconcileOp(id, ev) => NothingReconciled(s, id, ev);
  }

  lemma NothingPrepared(s: Store, decided: Result<Intent, Code>, expected: Word, next: Word)
    requires s.word != expected
    ensures Prepare(s, decided, expected, next).commits == []
  {
  }

  lemma NothingClaimed(s: Store, id: string, ev: Evidence)
    requires s.word.Complete? || s.word.IsHalted()
    ensures Claim(s, id, ev).commits == []
  {
    hide ClaimGate;
  }

  lemma NothingReconciled(s: Store, id: string, ev: Evidence)
    requires s.word.Complete? || s.word.IsHalted()
    ensures Reconcile(s, id, ev).commits == []
  {
    ReconcileCommits(s, id, ev);
    hide PlanFor, AllFillsBindPersistedOrders, AssertBinding, ValidateCommon, Get;
  }

  /** In every run, COMPLETE was set by one reconciliation whose evidence proves the account flat. */
  lemma {:induction false} RunCompletesProvenFlat(trace: seq<Store>, steps: seq<Step>)
    requires IsRun(trace, steps) && forall step <- steps :: UniqueFillIds(step.op.ev.fills)
    requires trace[|steps|].word.Complete?
    ensures exists i | 0 <= i < |steps| :: steps[i].op.ReconcileOp? && ProvenFlat(trace[|steps|].rows, steps[i].op.ev)
  {
    RunKeeps(trace, steps);
    var n := |steps| - 1;
    var before := trace[n];
    assert before in trace && trace[n + 1] == After(before, steps[n]);
    if before.word.Complete? {
      TerminalIsAbsorbing(before, steps[n].op);
      RunCompletesProvenFlat(trace[..n + 1], steps[..n]);
      var i :| 0 <= i < n && steps[..n][i].op.ReconcileOp? && ProvenFlat(before.rows, steps[..n][i].op.ev);
      assert steps[i].op.ReconcileOp?;
    } else {
      CompletionIsProvenFlat(before, steps[n].op);
    }
  }

  /** A failed reconciliation leaves the rows alone, and the word too unless it halts. */
  lemma FailureOnlyHalts(s: Store, id: string, ev: Evidence)
    ensures var r := Reconcile(s, id, ev);
      r.result.Err? ==>
        && r.Final(s).rows == s.rows
        && (r.Final(s).word == s.word || r.Final(s).word.IsHalted())
        && (Transient(r.result.error) ==> r.commits == [])
  {
    ReconcileCommits(s, id, ev);
    hide PlanFor, AllFillsBindPersistedOrders, AssertBinding, ValidateCommon;
  }

  /** The same intents at the same places; only their states and dispatch counts may move. */
  ghost predicate Extends(before: seq<Intent>, after: seq<Intent>) {
    && |before| <= |after|
    && forall i | 0 <= i < |before| ::
        && after[i] == before[i].(state := after[i].state, dispatchCount := after[i].dispatchCount)
        && before[i].dispatchCount <= after[i].dispatchCount
  }

  lemma {:induction false} WithStatesExtends(rows: seq<Intent>, states: seq<(string, IntentState)>)
    requires WithStates(rows, states).Ok?
    ensures Extends(rows, WithStates(rows, states).value) && |WithStates(rows, states).value| == |rows|
    decreases |states|
  {
    if states != [] {
      var at := IndexOf(rows, states[0].0).value;
      WithStatesExtends(rows[at := rows[at].(state := states[0].1)], states[1..]);
    }
  }

  lemma StatesTxExtends(s: Store, states: seq<(string, IntentState)>, word: Word)
    ensures SetStatesTx(s, states, word).Ok? ==> Extends(s.rows, SetStatesTx(s, states, word).value.rows)
  {
    if WithStates(s.rows, states).Ok? {
      WithStatesExtends(s.rows, states);
    }
  }

  lemma PlanEntryExtends(s: Store, intent: Intent, ev: Evidence)
    requires PlanEntry(s, intent, ev).Ok?
    ensures forall c <- PlanEntry(s, intent, ev).value.commits :: Extends(s.rows, c.rows)
  {
    hide ValidatedFills, ValidatePositionBinding, AuthoritativePosition, EntryWord;
    if WithStates(s.rows, [(intent.id, EntryReconciled)]).Ok? {
      WithStatesExtends(s.rows, [(intent.id, EntryReconciled)]);
    }
  }

  lemma PlanCloseExtends(s: Store, intent: Intent, ev: Evidence)
    requires PlanClose(s, intent, ev).Ok?
    ensures forall c <- PlanClose(s, intent, ev).value.commits :: Extends(s.rows, c.rows)
  {
    hide CloseProof, CloseIsFinal;
    StatesTxExtends(s, [(intent.id, CloseReconciled)], Exposed);
    StatesTxExtends(s, [(intent.id, CloseRejected)], HaltedCloseRejected);
  }

  lemma CancelCommitsExtend(s: Store, intent: Intent, target: Intent, commits: seq<Store>)
    requires CancelCommits(s, intent, target, commits)
    ensures forall c <- commits :: Extends(s.rows, c.rows)
  {
    hide SetStatesTx;
    var unsent := intent.state.Prepared?;
    StatesTxExtends(s, [(intent.id, if unsent then SupersededNotDispatched else ReconciledCancelledNoFill),
      (target.id, EntryCancelledNoFill)], FlatPendingExpiry);
    StatesTxExtends(s, [(intent.id, if unsent then SupersededNotDispatched else ReconciledNoCancelEffect),
      (target.id, EntryReconciled)], Exposed);
  }

  lemma PlanCancelExtends(s: Store, intent: Intent, ev: Evidence)
    requires PlanCancel(s, intent, ev).Ok?
    ensures forall c <- PlanCancel(s, intent, ev).value.commits :: Extends(s.rows, c.rows)
  {
    hide CancelCommits, Extends;
    CancelHasTarget(s, intent, ev);
    hide PlanCancel, GetTarget;
    PlanCancelCommits(s, intent, GetTarget(s, intent).value, ev);
    CancelCommitsExtend(s, intent, GetTarget(s, intent).value, PlanCancel(s, intent, ev).value.commits);
  }

  lemma CancelHasTarget(s: Store, intent: Intent, ev: Evidence)
    requires PlanCancel(s, intent, ev).Ok?
    ensures GetTarget(s, intent).Ok?
  {
    hide GetTarget;
  }

  lemma PlanExtends(s: Store, intent: Intent, ev: Evidence)
    requires PlanFor(s, intent, ev).Ok?
    ensures forall c <- PlanFor(s, intent, ev).value.commits :: Extends(s.rows, c.rows)
  {
    hide PlanEntry, PlanCancel, PlanClose;
    match intent.kind
    case Entry => PlanEntryExtends(s, intent, ev);
    case Close => PlanCloseExtends(s, intent, ev);
    case _ => PlanCancelExtends(s, intent, ev);
  }

  lemma ReconcileExtends(s: Store, id: string, ev: Evidence)
    ensures forall c <- Reconcile(s, id, ev).commits :: Extends(s.rows, c.rows)
  {
    ReconcileCommits(s, id, ev);
    hide Reconcile, PlanFor, Get, RouteAllowed, ValidateCommon, AssertBinding, AllFillsBindPersistedOrders;
    var r := Reconcile(s, id, ev);
    if r.commits != [] && r.result.Ok? {
      PlanExtends(s, Get(s, id).value, ev);
    }
  }

  lemma CommitsExtend(s: Store, op: Op)
    ensures forall c <- Commits(s, op) :: Extends(s.rows, c.rows)
  {
    hide EntryIntent, CancellationIntent, CloseIntent, ClaimGate, Reconcile;
    if op.ReconcileOp? {
      ReconcileExtends(s, op.id, op.ev);
    }
  }

  lemma AfterExtends(s: Store, step: Step)
    ensures Extends(s.rows, After(s, step).rows)
  {
    CommitsExtend(s, step.op);
    hide Commits;
  }

  lemma ExtendsTransitive(a: seq<Intent>, b: seq<Intent>, c: seq<Intent>)
    requires Extends(a, b) && Extends(b, c)
    ensures Extends(a, c)
  {
  }

  lemma {:induction false} RunExtends(trace: seq<Store>, steps: seq<Step>, i: nat, j: nat)
    requires IsRun(trace, steps) && i <= j <= |steps|
    ensures Extends(trace[i].rows, trace[j].rows)
    decreases j - i
  {
    hide After;
    if i < j {
      RunExtends(trace, steps, i, j - 1);
      AfterExtends(trace[j - 1], steps[j - 1]);
      assert trace[j] == After(trace[j - 1], steps[j - 1]);
      ExtendsTransitive(trace[i].rows, trace[j - 1].rows, trace[j].rows);
    }
  }

  function Dispatches(rows: seq<Intent>): nat {
    if rows == [] then 0 else rows[0].dispatchCount + Dispatches(rows[1..])
  }

  lemma {:induction false} OneDispatchEach(rows: seq<Intent>)
    requires forall row <- rows :: row.dispatchCount <= 1
    ensures Dispatches(rows) <= |rows|
  {
    if rows != [] {
      OneDispatchEach(rows[1..]);
    }
  }

  /**
   In every run a nonce, an external id and an id belong to one intent for ever, there is at most one
   intent of each role, and at most three requests are released.
   */
  lemma RunNeverReuses(trace: seq<Store>, steps: seq<Step>, i: nat, j: nat)
    requires IsRun(trace, steps) && i <= j <= |steps|
    ensures Extends(trace[i].rows, trace[j].rows) && Distinct(trace[j].rows)
    ensures |trace[j].rows| <= 3 && Dispatches(trace[j].rows) <= 3
    ensures forall x, y | 0 <= x < y < |trace[j].rows| ::
        && !trace[j].rows[y].kind.Entry? && !trace[j].rows[x].kind.Close?
        && !(trace[j].rows[x].IsCancellation() && trace[j].rows[y].IsCancellation())
    ensures forall row <- trace[j].rows ::
        row.dispatchCount <= 1 && (row.IsOrder() ==> (row.dispatchCount == 0 <==> row.state.Prepared?))
        && (row.IsCancellation() && row.dispatchCount == 1 ==> !row.state.Prepared?)
  {
    hide Inv, After, Extends, Distinct;
    RunExtends(trace, steps, i, j);
    RunKeeps(trace, steps);
    assert trace[j] in trace;
    KeptStoreBounds(trace[j]);
  }

  lemma KeptStoreBounds(s: Store)
    requires Inv(s)
    ensures Distinct(s.rows) && |s.rows| <= 3 && Dispatches(s.rows) <= 3
    ensures forall x, y | 0 <= x < y < |s.rows| ::
        && !s.rows[y].kind.Entry? && !s.rows[x].kind.Close? && !(s.rows[x].IsCancellation() && s.rows[y].IsCancellation())
    ensures forall row <- s.rows ::
        row.dispatchCount <= 1 && (row.IsOrder() ==> (row.dispatchCount == 0 <==> row.state.Prepared?))
        && (row.IsCancellation() && row.dispatchCount == 1 ==> !row.state.Prepared?)
  {
    ShapeBoundsRows(s);
    assert forall row <- s.rows :: RowOk(row);
    OneDispatchEach(s.rows);
  }

  // ----- Realised loss -----

  /** Cash paid for the fills: buys cost value plus fee, sales bring value less fee. */
  function CashOut(fills: seq<Fill>): real {
    if fills == [] then 0.0 else FillCash(fills[0]) + CashOut(fills[1..])
  }

  function FillCash(f: Fill): real {
    match f.side
    case Some(Buy) => f.value + f.fee
    case Some(Sell) => f.fee - f.value
    case None => 0.0
  }

  /** The worst cash flow of a quantity at a limit and a fee rate. */
  function LimitCash(side: Side, qty: real, limit: real, rate: real): real {
    if side.Buy? then (qty * limit) * (1.0 + rate) else -((qty * limit) * (1.0 - rate))
  }

  function WorstCash(intent: Intent): real
    requires intent.side.Some? && intent.payload.Some?
  {
    LimitCash(intent.side.value, intent.qty.value, intent.price.value, intent.payload.value.fee.value)
  }

  /** One fill at a price inside the limit. */
  lemma FillCashBound(side: Side, price: real, limit: real, qty: real, rate: real, value: real, fee: real)
    requires qty > 0.0 && 0.0 <= rate <= 1.0 && value == price * qty && fee == value * rate
    requires if side.Buy? then price <= limit else price >= limit
    ensures (if side.Buy? then value + fee else fee - value) <= LimitCash(side, qty, limit, rate)
  {
    var gap := (limit - price) * qty;
    assert gap == qty * limit - price * qty;
    if side.Buy? {
      assert gap >= 0.0 && gap * (1.0 + rate) >= 0.0;
    } else {
      assert gap <= 0.0 && gap * (1.0 - rate) <= 0.0;
    }
  }

  lemma LimitCashAdds(side: Side, x: real, y: real, limit: real, rate: real)
    ensures LimitCash(side, x + y, limit, rate) == LimitCash(side, x, limit, rate) + LimitCash(side, y, limit, rate)
  {
    assert (x + y) * limit == x * limit + y * limit;
  }

  lemma FillWithinLimit(intent: Intent, fills: seq<Fill>)
    requires WithinLimit(intent, fills) && fills != [] && 0.0 <= intent.payload.value.fee.value <= 1.0
    ensures CashOut(fills) - CashOut(fills[1..])
      <= LimitCash(intent.side.value, fills[0].qty, intent.price.value, intent.payload.value.fee.value)
  {
    hide LimitCash;
    var f, r := fills[0], intent.payload.value.fee.value;
    assert f in fills;
    FillCashBound(intent.side.value, f.price, intent.price.value, f.qty, r, f.value, f.fee);
  }

  lemma {:induction false} CashOutBound(intent: Intent, fills: seq<Fill>)
    requires WithinLimit(intent, fills) && 0.0 <= intent.payload.value.fee.value <= 1.0
    ensures CashOut(fills) <= LimitCash(intent.side.value, FillQty(fills), intent.price.value, intent.payload.value.fee.value)
  {
    if fills != [] {
      CashOutBound(intent, fills[1..]);
      FillWithinLimit(intent, fills);
      LimitCashAdds(intent.side.value, fills[0].qty, FillQty(fills[1..]), intent.price.value, intent.payload.value.fee.value);
      hide LimitCash, CashOut;
    }
  }

  lemma OrderCashBound(intent: Intent, ev: Evidence)
    requires FullyFilled(intent, ev) && 0.0 <= intent.payload.value.fee.value <= 1.0
    ensures CashOut(FillsOf(ev.fills, intent.externalId)) <= WorstCash(intent)
  {
    CashOutBound(intent, FillsOf(ev.fills, intent.externalId));
  }

  lemma {:induction false} CashOutSplits(fills: seq<Fill>, x: string, y: string)
    requires x != y && forall f <- fills :: f.externalId == x || f.externalId == y
    ensures CashOut(fills) == CashOut(FillsOf(fills, x)) + CashOut(FillsOf(fills, y))
  {
    if fills != [] {
      CashOutSplits(fills[1..], x, y);
      var own, other := FillsOf(fills, fills[0].externalId), if fills[0].externalId == x then y else x;
      assert own[1..] == FillsOf(fills[1..], fills[0].externalId);
      assert FillsOf(fills, other) == FillsOf(fills[1..], other);
      hide FillCash, FillsOf;
    }
  }

  /**
   The loss realised by a completed close is at most what both limits and both fee rates allow:
   for a bought entry, qty * pe * (1 + re) - qty * pc * (1 - rc), and mirrored for a sold one.
   */
  lemma CompletedLossBound(rows: seq<Intent>, ev: Evidence)
    requires ProvenFlat(rows, ev) && Sound(rows)
    requires forall row <- rows | row.IsOrder() :: row.payload.Some? && row.payload.value.fee.value <= 1.0
    ensures CancelledFlat(rows) ==> CashOut(ev.fills) == 0.0
    ensures HeldThenClose(rows, CloseReconciled) ==>
        var entry, close := rows[0], rows[|rows| - 1];
        && entry.side.Some? && close.side.Some? && entry.payload.Some? && close.payload.Some?
        && CashOut(ev.fills) <= WorstCash(entry) + WorstCash(close)
  {
    hide WorstCash, FullyFilled, SignedQty;
    if HeldThenClose(rows, CloseReconciled) {
      var entry, close := rows[0], rows[|rows| - 1];
      assert entry == rows[..|rows| - 1][0];
      assert RowOk(entry) && RowOk(close);
      CashOutSplits(ev.fills, entry.externalId, close.externalId);
      OrderCashBound(entry, ev);
      OrderCashBound(close, ev);
    }
  }

  /** What the completed table may have cost: nothing without fills, the two worst cash flows after a close. */
  ghost predicate LossBounded(rows: seq<Intent>, ev: Evidence) {
    && (CancelledFlat(rows) ==> CashOut(ev.fills) == 0.0)
    && (HeldThenClose(rows, CloseReconciled) ==>
          && rows[0].side.Some? && rows[0].payload.Some? && rows[|rows| - 1].side.Some? && rows[|rows| - 1].payload.Some?
          && CashOut(ev.fills) <= WorstCash(rows[0]) + WorstCash(rows[|rows| - 1]))
  }

  /** A run that completes did so on evidence whose realised loss is bounded, or without any fill. */
  lemma RunLossBound(trace: seq<Store>, steps: seq<Step>)
    requires IsRun(trace, steps) && forall step <- steps :: UniqueFillIds(step.op.ev.fills)
    requires trace[|steps|].word.Complete?
    requires forall row <- trace[|steps|].rows | row.IsOrder() :: row.payload.Some? && row.payload.value.fee.value <= 1.0
    ensures CancelledFlat(trace[|steps|].rows) || HeldThenClose(trace[|steps|].rows, CloseReconciled)
    ensures exists i | 0 <= i < |steps| :: steps[i].op.ReconcileOp? && LossBounded(trace[|steps|].rows, steps[i].op.ev)
  {
    var rows := trace[|steps|].rows;
    RunKeeps(trace, steps);
    assert trace[|steps|] in trace;
    RunCompletesProvenFlat(trace, steps);
    hide After, ProvenFlat, Sound, WorstCash, CashOut;
    var i :| 0 <= i < |steps| && steps[i].op.ReconcileOp? && ProvenFlat(rows, steps[i].op.ev);
    CompletedLossBound(rows, steps[i].op.ev);
    assert LossBounded(rows, steps[i].op.ev);
  }

  // ----- Crash between the two completion transactions -----

  /** Tables that differ only in the states of their rows. */
  ghost predicate SameButStates(a: seq<Intent>, b: seq<Intent>) {
    |a| == |b| && forall i | 0 <= i < |a| :: b[i] == a[i].(state := b[i].state)
  }

  lemma FillsIgnoreState(intent: Intent, state: IntentState, order: Order, ev: Evidence)
    ensures ValidatedFills(intent.(state := state), order, ev) == ValidatedFills(intent, order, ev)
  {
    FillsErrorIgnoresState(intent, state, order, if intent.payload.Some? then intent.payload.value.fee.value else 0.0,
      MatchingFills(ev.fills, order.id));
  }

  lemma {:induction false} FillsErrorIgnoresState(intent: Intent, state: IntentState, order: Order, rate: real, fills: seq<Fill>)
    ensures FillsError(intent.(state := state), order, rate, fills) == FillsError(intent, order, rate, fills)
  {
    if fills != [] {
      FillsErrorIgnoresState(intent, state, order, rate, fills[1..]);
    }
  }

  lemma {:induction false} FinalFillIdsIgnoreStates(a: seq<Intent>, b: seq<Intent>, ev: Evidence)
    requires SameButStates(a, b)
    ensures FinalFillIds(a, ev) == FinalFillIds(b, ev)
  {
    if a != [] {
      FinalFillIdsIgnoreStates(a[1..], b[1..], ev);
      var order := LastOrder(ev.orderHistory, a[0].externalId);
      if order.Some? {
        FillsIgnoreState(a[0], b[0].state, order.value, ev);
      }
      hide ValidatedFills;
    }
  }

  lemma IdentitiesIgnoreStates(a: seq<Intent>, b: seq<Intent>, ev: Evidence)
    requires SameButStates(a, b)
    ensures OrderIds(a) == OrderIds(b)
    ensures FinalIdentities(a, ev) == FinalIdentities(b, ev)
    ensures AllFillsBindPersistedOrders(a, ev) == AllFillsBindPersistedOrders(b, ev)
  {
    FinalFillIdsIgnoreStates(a, b, ev);
    hide FinalFillIds;
    forall id ensures id in OrderIds(a) <==> id in OrderIds(b) {
      if id in OrderIds(a) {
        var i :| 0 <= i < |a| && a[i].IsOrder() && a[i].externalId == id;
        assert b[i] in b;
      }
      if id in OrderIds(b) {
        var i :| 0 <= i < |b| && b[i].IsOrder() && b[i].externalId == id;
        assert a[i] in a;
      }
    }
  }

  lemma TargetResumes(s: Store, intent: Intent, rows: seq<Intent>)
    requires |rows| > 0 && |s.rows| > 0 && rows[0] == s.rows[0] && GetTarget(s, intent) == Ok(s.rows[0])
    ensures GetTarget(Store(rows, Exposed), intent.(state := CloseReconciled)) == Ok(s.rows[0])
  {
    assert IndexOf(rows, rows[0].id) == Some(0);
  }

  /** The same close, found again once it is marked reconciled. */
  lemma CloseProofResumes(s: Store, intent: Intent, rows: seq<Intent>, order: Order, ev: Evidence)
    requires Inv(s) && intent in s.rows && intent.kind.Close?
    requires SameButStates(s.rows, rows) && rows[0] == s.rows[0]
    ensures CloseProof(Store(rows, Exposed), intent.(state := CloseReconciled), order, ev) == CloseProof(s, intent, order, ev)
  {
    assert |rows| == |s.rows| > 0;
    var marked, flat := intent.(state := CloseReconciled), Store(rows, Exposed);
    FillsIgnoreState(intent, CloseReconciled, order, ev);
    IdentitiesIgnoreStates(s.rows, rows, ev);
    TargetIsEntry(s, intent);
    TargetResumes(s, intent, rows);
    SameProof(s, intent, flat, marked, order, ev);
  }

  /** A close proof depends on the store and the intent through their fills, their target and their final identities alone. */
  lemma SameProof(s: Store, intent: Intent, other: Store, again: Intent, order: Order, ev: Evidence)
    requires ValidatedFills(again, order, ev) == ValidatedFills(intent, order, ev) && again.qty == intent.qty
    requires GetTarget(other, again) == GetTarget(s, intent)
    requires FinalIdentities(other.rows, ev) == FinalIdentities(s.rows, ev)
    ensures CloseProof(other, again, order, ev) == CloseProof(s, intent, order, ev)
  {
    hide ValidatedFills, FinalIdentities, GetTarget, FillQty, FirstOrder;
  }

  lemma MarkedClose(s: Store, intent: Intent)
    requires Inv(s) && intent in s.rows && intent.kind.Close? && RouteAllowed(intent, s.word)
    ensures var last := |s.rows| - 1; var rows := Restated(s.rows, last, CloseReconciled);
      var marked := intent.(state := CloseReconciled);
      && WithStates(s.rows, [(intent.id, CloseReconciled)]) == Ok(rows)
      && WithStates(rows, [(intent.id, CloseReconciled)]) == Ok(rows)
      && Get(Store(rows, Exposed), intent.id) == Ok(marked)
      && SameButStates(s.rows, rows) && rows[0] == s.rows[0]
  {
    CloseRestated(s, intent, CloseReconciled);
    ShapeBoundsRows(s);
    var last := |s.rows| - 1;
    var rows := Restated(s.rows, last, CloseReconciled);
    RestatedKeeps(rows, last, CloseReconciled);
    IndexOfRow(rows, last);
    assert Restated(rows, last, CloseReconciled) == rows;
  }

  /** The plan of a proven close, given the rows that its first transaction writes. */
  function ProvenPlan(rows: seq<Intent>, ids: (set<string>, set<int>), ev: Evidence): Plan {
    var flat := Store(rows, Exposed);
    if CloseIsFinal(rows, ev) then
      Plan([flat, Store(rows, Complete)], ReconciliationResult(Complete, true, 0.0, 0.0, ids.0, ids.1))
    else
      Plan([flat], ReconciliationResult(Exposed, false, 0.0, 0.0, ids.0, ids.1))
  }

  lemma SetNothing(s: Store, word: Word)
    ensures SetStatesTx(s, [], word) == Ok(s.(word := word))
  {
  }

  lemma PlanCloseIsProvenPlan(s: Store, intent: Intent, rows: seq<Intent>, ev: Evidence)
    requires WithStates(s.rows, [(intent.id, CloseReconciled)]) == Ok(rows)
    requires MatchingOrder(intent, ev).1.Some?
    ensures var (status, history) := MatchingOrder(intent, ev); var proof := CloseProof(s, intent, history.value, ev);
      if ev.openOrders == [] && status == history && history.value.status.Filled? && proof.Ok? then
        PlanClose(s, intent, ev) == Ok(ProvenPlan(rows, proof.value, ev))
      else PlanClose(s, intent, ev).Err? || PlanClose(s, intent, ev).value.commits[0].word.HaltedCloseRejected?
  {
    hide CloseProof, CloseIsFinal;
    SetNothing(Store(rows, Exposed), Complete);
  }

  /** From the table left by a crash after the first transaction, the same plan ends in the same table. */
  lemma PlanCloseResumes(s: Store, intent: Intent, ev: Evidence)
    requires Inv(s) && intent in s.rows && intent.kind.Close? && RouteAllowed(intent, s.word)
    requires PlanClose(s, intent, ev).Ok? && !PlanClose(s, intent, ev).value.commits[0].word.IsHalted()
    ensures var plan := PlanClose(s, intent, ev).value; var mid := plan.commits[0];
      && SameButStates(s.rows, mid.rows) && mid.word.Exposed?
      && Get(mid, intent.id) == Ok(intent.(state := CloseReconciled))
      && PlanClose(mid, intent.(state := CloseReconciled), ev) == Ok(plan)
  {
    MarkedClose(s, intent);
    var marked, rows := intent.(state := CloseReconciled), Restated(s.rows, |s.rows| - 1, CloseReconciled);
    assert MatchingOrder(intent, ev) == MatchingOrder(marked, ev);
    CloseProofResumes(s, intent, rows, MatchingOrder(intent, ev).1.value, ev);
    PlanCloseIsProvenPlan(s, intent, rows, ev);
    PlanCloseIsProvenPlan(Store(rows, Exposed), marked, rows, ev);
    hide PlanClose, CloseProof;
  }

  /**
   Stopping after the first transaction of a close reconciliation and reconciling the same evidence
   again reaches the table, and returns the result, of the call that was not interrupted.
   */
  lemma CrashResume(s: Store, id: string, ev: Evidence)
    requires Inv(s) && Get(s, id).Ok? && Get(s, id).value.kind.Close?
    ensures Reconcile(s, id, ev).result.Ok? ==> Reconcile(s, id, ev).commits != []
    ensures var whole := Reconcile(s, id, ev);
      whole.result.Ok? && !whole.commits[0].word.IsHalted() ==>
        var resumed := Reconcile(whole.commits[0], id, ev);
        resumed.result == whole.result && resumed.Final(whole.commits[0]) == whole.Final(s)
  {
    var whole := Reconcile(s, id, ev);
    var intent := Get(s, id).value;
    if whole.result.Ok? {
      ResultOkMeansPlan(s, id, ev);
      PlanCloseCommits(s, intent, ev);
      var mid := whole.commits[0];
      if !mid.word.IsHalted() {
        PlanCloseResumes(s, intent, ev);
        IdentitiesIgnoreStates(s.rows, mid.rows, ev);
        PlanMeansResultOk(mid, id, ev);
      }
    }
  }

  lemma PlanCloseCommits(s: Store, intent: Intent, ev: Evidence)
    requires PlanClose(s, intent, ev).Ok?
    ensures PlanClose(s, intent, ev).value.commits != []
  {
    hide CloseProof, CloseIsFinal;
  }

  lemma ResultOkMeansPlan(s: Store, id: string, ev: Evidence)
    requires Reconcile(s, id, ev).result.Ok?
    ensures Get(s, id).Ok? && ValidateCommon(ev).Ok? && !s.word.IsHalted()
    ensures RouteAllowed(Get(s, id).value, s.word) && AssertBinding(Get(s, id).value, ev).Ok?
    ensures AllFillsBindPersistedOrders(s.rows, ev)
    ensures PlanFor(s, Get(s, id).value, ev) == Ok(Plan(Reconcile(s, id, ev).commits, Reconcile(s, id, ev).result.value))
  {
    hide PlanFor, AllFillsBindPersistedOrders, ValidateCommon, AssertBinding;
  }

  lemma PlanMeansResultOk(s: Store, id: string, ev: Evidence)
    requires Get(s, id).Ok? && ValidateCommon(ev).Ok? && !s.word.IsHalted()
    requires RouteAllowed(Get(s, id).value, s.word) && AssertBinding(Get(s, id).value, ev).Ok?
    requires AllFillsBindPersistedOrders(s.rows, ev) && PlanFor(s, Get(s, id).value, ev).Ok?
    ensures var plan := PlanFor(s, Get(s, id).value, ev).value;
      Reconcile(s, id, ev) == Outcome(plan.commits, Ok(plan.result))
  {
    hide PlanFor, AllFillsBindPersistedOrders, ValidateCommon, AssertBinding;
  }
}

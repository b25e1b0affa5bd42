/**
 What every table reachable by any run satisfies: the lifecycle word fixes which
 intents exist and in which state, and the rows never reuse an identity.
 */
module LifecycleInvariant {
  import opened Wrappers
  import opened VenueEvidence
  import opened Intents
  import opened LifecycleSpec

  // ----- The invariant -----

  /** An order was sent exactly when it is past Prepared; a cancellation may be superseded unsent. */
  ghost predicate RowOk(row: Intent) {
    && row.id == row.externalId
    && row.dispatchCount <= 1
    && (row.IsOrder() ==>
      && row.nonce.Some?
      && row.side.Some?
      && row.payload.Some?
      && row.payload.value.fee.value >= 0.0
      && row.qty.value > 0.0
      && row.price.value > 0.0
      && (row.state.Prepared? <==> row.dispatchCount == 0))
    && (row.IsCancellation() ==>
      && row.nonce.None?
      && (row.dispatchCount == 1 ==> !row.state.Prepared?)
      && (row.state.Claimed? || row.state.ReconciledCancelledNoFill? ==> row.dispatchCount == 1)
      && (row.state.SupersededNotDispatched? ==> row.dispatchCount == 0))
  }

  ghost predicate Distinct(rows: seq<Intent>) {
    forall i, j | 0 <= i < j < |rows| ::
      && rows[i].id != rows[j].id
      && rows[i].externalId != rows[j].externalId
      && (rows[i].nonce.Some? ==> rows[i].nonce != rows[j].nonce)
  }

  /** Every later row acts on the entry; a close trades the opposite side. */
  ghost predicate Linked(rows: seq<Intent>) {
    forall i | 0 < i < |rows| ::
      && rows[i].targetId == Some(rows[0].id)
      && (rows[i].IsCancellation() ==> rows[i].expiryMs == rows[0].expiryMs)
      && (rows[i].kind.Close? ==> rows[0].side.Some? && rows[i].side == Some(Opposite(rows[0].side.value)) && rows[i].reduceOnly)
  }

  ghost predicate IsEntry(row: Intent, state: IntentState) {
    row.kind.Entry? && row.state == state
  }

  ghost predicate IsCancel(row: Intent, states: set<IntentState>) {
    row.IsCancellation() && row.state in states
  }

  ghost predicate IsClose(row: Intent, state: IntentState) {
    row.kind.Close? && row.state == state
  }

  /** A filled entry, possibly after a cancellation that came too late. */
  ghost predicate Held(rows: seq<Intent>) {
    && 1 <= |rows| <= 2
    && IsEntry(rows[0], EntryReconciled)
    && (|rows| == 2 ==> IsCancel(rows[1], {SupersededNotDispatched, ReconciledNoCancelEffect}))
  }

  ghost predicate HeldThenClose(rows: seq<Intent>, state: IntentState) {
    |rows| >= 2 && Held(rows[..|rows| - 1]) && IsClose(rows[|rows| - 1], state)
  }

  ghost predicate CancelledFlat(rows: seq<Intent>) {
    && |rows| == 2
    && IsEntry(rows[0], EntryCancelledNoFill)
    && IsCancel(rows[1], {SupersededNotDispatched, ReconciledCancelledNoFill})
  }

  ghost predicate Cancelling(rows: seq<Intent>, state: IntentState) {
    |rows| == 2 && IsEntry(rows[0], Claimed) && IsCancel(rows[1], {state})
  }

  /** The intents that can exist under each lifecycle word. */
  ghost predicate Shape(word: Word, rows: seq<Intent>) {
    match word
    case Flat => rows == []
    case EntryPrepared => |rows| == 1 && IsEntry(rows[0], Prepared)
    case EntryAmbiguous => |rows| == 1 && IsEntry(rows[0], Claimed)
    case CancelPrepared => Cancelling(rows, Prepared)
    case CancelAmbiguous => Cancelling(rows, Claimed)
    case FlatPendingExpiry => CancelledFlat(rows)
    case Exposed => Held(rows) || HeldThenClose(rows, CloseReconciled)
    case ClosePrepared => HeldThenClose(rows, Prepared)
    case CloseAmbiguous => HeldThenClose(rows, Claimed)
    case Complete => CancelledFlat(rows) || HeldThenClose(rows, CloseReconciled)
    case HaltedCloseRejected => HeldThenClose(rows, CloseRejected)
    case HaltedUnexplainedFill => UnderReconciliation(rows)
    case HaltedReconciliationContradiction => UnderReconciliation(rows)
    case _ => |rows| == 1 && IsEntry(rows[0], EntryReconciled)
  }

  /** The tables from which a reconciliation may run, and so may halt. */
  ghost predicate UnderReconciliation(rows: seq<Intent>) {
    || (|rows| == 1 && IsEntry(rows[0], Claimed))
    || Cancelling(rows, Prepared)
    || Cancelling(rows, Claimed)
    || CancelledFlat(rows)
    || HeldThenClose(rows, Claimed)
    || HeldThenClose(rows, CloseReconciled)
  }

  ghost predicate Sound(rows: seq<Intent>) {
    (forall row <- rows :: RowOk(row)) && Distinct(rows) && Linked(rows)
  }

  ghost predicate Inv(s: Store) {
    Sound(s.rows) && Shape(s.word, s.rows)
  }

  // ----- Each operation keeps it -----

  lemma ShapeBoundsRows(s: Store)
    requires Inv(s)
    ensures |s.rows| <= 3
    ensures forall i | 0 < i < |s.rows| :: !s.rows[i].kind.Entry?
    ensures forall i | 0 <= i < |s.rows| - 1 :: !s.rows[i].kind.Close?
    ensures |s.rows| > 0 ==> s.rows[0].kind.Entry?
  {
  }

  /** An id names one row. */
  lemma IndexOfRow(rows: seq<Intent>, i: nat)
    requires Distinct(rows) && i < |rows|
    ensures IndexOf(rows, rows[i].id) == Some(i)
  {
  }

  lemma BuiltPayload(v: OrderVector, serverTimeMs: int)
    requires BuildLimitIocOrder(v, serverTimeMs).Ok?
    ensures v.side.Some? && v.fee.value >= 0.0 && v.price.value > 0.0 && v.qty.value > 0.0
    ensures BuildLimitIocOrder(v, serverTimeMs).value.fee == v.fee
  {
  }

  lemma GatePasses(ev: Evidence, v: OrderVector, qty: real, price: real)
    requires ValidateOrderGate(ev, v, qty, price).Ok?
    ensures qty > 0.0 && price > 0.0 && v.qty.value == qty && v.price.value == price && ev.openOrders == []
    ensures BuildLimitIocOrder(v, ev.serverTimeMs).Ok?
  {
  }

  lemma EntryPassesGate(ev: Evidence, qty: real, price: real)
    requires ValidateEntry(ev, qty, price).Ok?
    ensures ValidateOrderGate(ev, ev.entryVector, qty, price).Ok?
  {
  }

  lemma PrepareEntryKeeps(s: Store, a: OrderArgs, ev: Evidence)
    requires Inv(s)
    ensures forall c <- Prepare(s, EntryIntent(s, a, ev), Flat, EntryPrepared).commits :: Inv(c)
    ensures var prepared := Prepare(s, EntryIntent(s, a, ev), Flat, EntryPrepared);
      prepared.result.Ok? ==> var intent := prepared.result.value;
        && s.rows == [] && prepared.commits == [Store([intent], EntryPrepared)]
        && IsEntry(intent, Prepared) && ValidateEntry(ev, intent.qty.value, intent.price.value).Ok?
        && intent.side == ev.entryVector.side && intent.nonce == Some(ev.entryVector.nonce) && intent.expiryMs == ev.entryVector.expiryMs
        && BuildLimitIocOrder(ev.entryVector, ev.serverTimeMs).Ok?
        && intent.payload == Some(BuildLimitIocOrder(ev.entryVector, ev.serverTimeMs).value)
  {
    hide ValidateEntry;
    if EntryIntent(s, a, ev).Ok? {
      var intent := EntryIntent(s, a, ev).value;
      EntryPassesGate(ev, a.qty.value, a.price.value);
      GatePasses(ev, ev.entryVector, a.qty.value, a.price.value);
      BuiltPayload(ev.entryVector, ev.serverTimeMs);
      assert RowOk(intent);
      assert s.rows + [intent] == [intent];
    }
  }

  lemma PrepareCancellationKeeps(s: Store, entryId: string, kind: Kind, ev: Evidence)
    requires Inv(s)
    ensures forall c <- Prepare(s, CancellationIntent(s, entryId, kind, ev), EntryAmbiguous, CancelPrepared).commits :: Inv(c)
  {
    if CancellationIntent(s, entryId, kind, ev).Ok? {
      var intent := CancellationIntent(s, entryId, kind, ev).value;
      assert RowOk(intent);
      assert s.rows + [intent] == [s.rows[0], intent];
    }
  }

  /** What a prepared close is, given the table it was prepared from. */
  lemma CloseIntentFacts(s: Store, a: CloseArgs, ev: Evidence, intent: Intent, entry: Intent, position: Position)
    requires Get(s, a.entryId) == Ok(entry) && AuthoritativePosition(ev) == Ok(position)
    ensures CloseIntent(s, a, ev) == Ok(intent) ==>
      && entry.kind.Entry? && s.word.Exposed? && (forall row <- s.rows :: !row.kind.Close?)
      && ValidatePositionBinding(entry, position, ev).Ok?
      && ValidateOrderGate(ev, ev.closeVector, position.size.value, a.price.value).Ok?
      && intent.payload.Some? && BuildLimitIocOrder(ev.closeVector, ev.serverTimeMs) == Ok(intent.payload.value)
      && intent == Intent(a.settlementHash, Close, Prepared, Some(a.nonce), a.settlementHash, intent.payload, a.expiryMs,
        ev.accountId, ev.l2Key, ev.marketName, Some(if position.side == Some(Long) then Sell else Buy),
        position.size, a.price, true, Some(entry.id), 0)
  {
  }

  lemma AppendKeepsLinks(rows: seq<Intent>, intent: Intent)
    requires rows != [] && Distinct(rows) && Linked(rows)
    requires forall row <- rows :: row.id != intent.id && row.externalId != intent.externalId
    requires forall row <- rows :: intent.nonce.Some? ==> row.nonce != intent.nonce
    requires intent.targetId == Some(rows[0].id)
    requires intent.IsCancellation() ==> intent.expiryMs == rows[0].expiryMs
    requires intent.kind.Close? ==> rows[0].side.Some? && intent.side == Some(Opposite(rows[0].side.value)) && intent.reduceOnly
    ensures Distinct(rows + [intent]) && Linked(rows + [intent])
  {
  }

  lemma InsertedClose(s: Store, entry: Intent, position: Position, intent: Intent, ev: Evidence)
    requires Inv(s) && s.word.Exposed? && entry in s.rows && entry.kind.Entry? && forall row <- s.rows :: !row.kind.Close?
    requires ValidatePositionBinding(entry, position, ev).Ok?
    requires intent.kind.Close? && intent.state.Prepared? && intent.dispatchCount == 0 && RowOk(intent)
    requires intent.targetId == Some(entry.id) && intent.reduceOnly
    requires intent.side == Some(if position.side == Some(Long) then Sell else Buy)
    ensures forall c <- Prepare(s, Ok(intent), Exposed, ClosePrepared).commits :: Inv(c)
  {
    assert Held(s.rows) && entry == s.rows[0] by { ShapeBoundsRows(s); }
    assert RowOk(entry);
    assert position.side == Some(OpenedBy(entry.side.value));
    if InsertTx(s, intent, Exposed, ClosePrepared).Ok? {
      AppendKeepsLinks(s.rows, intent);
      var rows := s.rows + [intent];
      assert rows[..|rows| - 1] == s.rows;
    }
  }

  /** A prepared intent is appended as decided, in one transaction. */
  lemma PreparedIs(s: Store, intent: Intent, expected: Word, next: Word)
    ensures var prepared := Prepare(s, Ok(intent), expected, next);
      prepared.result.Ok? ==> prepared.result.value == intent && prepared.commits == [Store(s.rows + [intent], next)]
  {
  }

  lemma PrepareCloseKeeps(s: Store, a: CloseArgs, ev: Evidence)
    requires Inv(s)
    ensures forall c <- Prepare(s, CloseIntent(s, a, ev), Exposed, ClosePrepared).commits :: Inv(c)
    ensures var prepared := Prepare(s, CloseIntent(s, a, ev), Exposed, ClosePrepared);
      prepared.result.Ok? ==> var intent := prepared.result.value;
        && prepared.commits == [Store(s.rows + [intent], ClosePrepared)]
        && IsClose(intent, Prepared) && intent.reduceOnly && intent.targetId == Some(a.entryId)
        && AuthoritativePosition(ev).Ok? && intent.qty == AuthoritativePosition(ev).value.size
        && intent.side == Some(if AuthoritativePosition(ev).value.side == Some(Long) then Sell else Buy)
        && ValidateOrderGate(ev, ev.closeVector, intent.qty.value, intent.price.value).Ok?
  {
    if CloseIntent(s, a, ev).Ok? {
      var intent := CloseIntent(s, a, ev).value;
      var entry := Get(s, a.entryId).value;
      var position := AuthoritativePosition(ev).value;
      CloseIntentFacts(s, a, ev, intent, entry, position);
      PreparedIs(s, intent, Exposed, ClosePrepared);
      assert entry.id == a.entryId;
      hide CloseIntent, Prepare;
      GatePasses(ev, ev.closeVector, position.size.value, a.price.value);
      BuiltPayload(ev.closeVector, ev.serverTimeMs);
      InsertedClose(s, entry, position, intent, ev);
    }
  }

  lemma ClaimGateFacts(s: Store, id: string, ev: Evidence)
    requires ClaimGate(s, id, ev).Ok?
    ensures Get(s, id) == ClaimGate(s, id, ev)
    ensures ClaimGate(s, id, ev).value.state.Prepared?
    ensures s.word == ClaimWords(ClaimGate(s, id, ev).value.kind).0
  {
  }

  lemma ClaimedShape(s: Store, at: nat)
    requires Inv(s) && at < |s.rows| && s.rows[at].state.Prepared? && s.word == ClaimWords(s.rows[at].kind).0
    ensures var row := s.rows[at];
      Inv(Store(s.rows[at := row.(state := Claimed, dispatchCount := row.dispatchCount + 1)], ClaimWords(row.kind).1))
  {
    var row := s.rows[at];
    var claimed := row.(state := Claimed, dispatchCount := row.dispatchCount + 1);
    assert RowOk(row);
    var rows := s.rows[at := claimed];
    assert at == |rows| - 1;
    assert rows[..|rows| - 1] == s.rows[..|rows| - 1];
    assert forall r <- rows :: RowOk(r);
    assert Distinct(rows) && Linked(rows);
  }

  /** The prepared row of this id, under its own word, becomes claimed with one more dispatch; nothing else moves. */
  ghost predicate ClaimsOne(before: Store, id: string, after: Store) {
    && IndexOf(before.rows, id).Some?
    && var at := IndexOf(before.rows, id).value; var row := before.rows[at];
      && row.state.Prepared? && row.dispatchCount == 0 && before.word == ClaimWords(row.kind).0
      && after == Store(before.rows[at := row.(state := Claimed, dispatchCount := 1)], ClaimWords(row.kind).1)
  }

  lemma ClaimKeeps(s: Store, id: string, ev: Evidence)
    requires Inv(s)
    ensures forall c <- Claim(s, id, ev).commits :: Inv(c) && ClaimsOne(s, id, c)
    ensures Claim(s, id, ev).result.Ok? ==> |Claim(s, id, ev).commits| == 1
  {
    hide ClaimGate;
    if ClaimGate(s, id, ev).Ok? {
      ClaimGateFacts(s, id, ev);
      var at := IndexOf(s.rows, id).value;
      ClaimedShape(s, at);
      assert RowOk(s.rows[at]);
    }
  }

  // ----- Reconciliation keeps it -----

  function Restated(rows: seq<Intent>, at: nat, state: IntentState): seq<Intent>
    requires at < |rows|
  {
    rows[at := rows[at].(state := state)]
  }

  lemma RestatedKeeps(rows: seq<Intent>, at: nat, state: IntentState)
    requires Sound(rows) && at < |rows| && RowOk(rows[at].(state := state))
    ensures Sound(Restated(rows, at, state))
    ensures WithStates(rows, [(rows[at].id, state)]) == Ok(Restated(rows, at, state))
  {
    IndexOfRow(rows, at);
    assert forall row <- Restated(rows, at, state) :: row == rows[at].(state := state) || row in rows;
  }

  /** A cancellation and its entry change state together. */
  lemma BothRestatedKeep(rows: seq<Intent>, state: IntentState, entryState: IntentState)
    requires Sound(rows) && |rows| == 2
    requires RowOk(rows[1].(state := state)) && RowOk(rows[0].(state := entryState))
    ensures Sound(Restated(Restated(rows, 1, state), 0, entryState))
    ensures WithStates(rows, [(rows[1].id, state), (rows[0].id, entryState)])
      == Ok(Restated(Restated(rows, 1, state), 0, entryState))
  {
    RestatedKeeps(rows, 1, state);
    var first := Restated(rows, 1, state);
    RestatedKeeps(first, 0, entryState);
    var states := [(rows[1].id, state), (rows[0].id, entryState)];
    assert states[1..] == [(first[0].id, entryState)];
  }

  lemma TargetIsEntry(s: Store, intent: Intent)
    requires Inv(s) && intent in s.rows && !intent.kind.Entry?
    ensures GetTarget(s, intent) == Ok(s.rows[0])
  {
    ShapeBoundsRows(s);
    IndexOfRow(s.rows, 0);
  }

  lemma PlanEntryKeeps(s: Store, intent: Intent, ev: Evidence)
    requires Inv(s) && intent in s.rows && intent.kind.Entry? && RouteAllowed(intent, s.word)
    requires PlanEntry(s, intent, ev).Ok?
    ensures forall c <- PlanEntry(s, intent, ev).value.commits :: Inv(c)
  {
    assert s.rows == [intent];
    RestatedKeeps(s.rows, 0, EntryReconciled);
  }

  /** The only tables a cancellation's plan commits. */
  ghost predicate CancelCommits(s: Store, intent: Intent, target: Intent, commits: seq<Store>) {
    var unsent := intent.state.Prepared?;
    || commits == []
    || (!intent.Outstanding() && commits == [s.(word := Complete)])
    || (|commits| == 1 && intent.Outstanding()
      && SetStatesTx(s, [(intent.id, if unsent then SupersededNotDispatched else ReconciledCancelledNoFill),
          (target.id, EntryCancelledNoFill)], FlatPendingExpiry) == Ok(commits[0]))
    || (|commits| == 1
      && SetStatesTx(s, [(intent.id, if unsent then SupersededNotDispatched else ReconciledNoCancelEffect),
          (target.id, EntryReconciled)], Exposed) == Ok(commits[0]))
  }

  lemma PlanCancelCommits(s: Store, intent: Intent, target: Intent, ev: Evidence)
    requires GetTarget(s, intent) == Ok(target) && PlanCancel(s, intent, ev).Ok?
    ensures CancelCommits(s, intent, target, PlanCancel(s, intent, ev).value.commits)
  {
    var (status, history) := MatchingOrder(target, ev);
    var fills := ValidatedFills(target, history.value, ev).value;
    if history.value.status.Cancelled? {
      assert PlanCancel(s, intent, ev) == PlanCancelled(s, intent, target, history.value, fills, ev);
    }
  }

  lemma CancelCommitsKeep(s: Store, intent: Intent, commits: seq<Store>)
    requires Inv(s) && |s.rows| == 2 && intent == s.rows[1] && intent.IsCancellation() && RouteAllowed(intent, s.word)
    requires CancelCommits(s, intent, s.rows[0], commits)
    ensures forall c <- commits :: Inv(c)
  {
    hide WithStates, IndexOf;
    assert RowOk(s.rows[0]) && RowOk(s.rows[1]);
    var unsent := intent.state.Prepared?;
    BothRestatedKeep(s.rows, if unsent then SupersededNotDispatched else ReconciledNoCancelEffect, EntryReconciled);
    if intent.Outstanding() {
      BothRestatedKeep(s.rows, if unsent then SupersededNotDispatched else ReconciledCancelledNoFill, EntryCancelledNoFill);
    }
  }

  lemma PlanCancelKeeps(s: Store, intent: Intent, ev: Evidence)
    requires Inv(s) && intent in s.rows && intent.IsCancellation() && RouteAllowed(intent, s.word)
    requires PlanCancel(s, intent, ev).Ok?
    ensures forall c <- PlanCancel(s, intent, ev).value.commits :: Inv(c)
  {
    TargetIsEntry(s, intent);
    PlanCancelCommits(s, intent, s.rows[0], ev);
    CancelCommitsKeep(s, intent, PlanCancel(s, intent, ev).value.commits);
  }

  lemma CloseRestated(s: Store, intent: Intent, state: IntentState)
    requires Inv(s) && intent in s.rows && intent.kind.Close? && RouteAllowed(intent, s.word)
    requires state.CloseReconciled? || state.CloseRejected?
    ensures |s.rows| > 0 && intent == s.rows[|s.rows| - 1]
    ensures var rows := Restated(s.rows, |s.rows| - 1, state);
      WithStates(s.rows, [(intent.id, state)]) == Ok(rows) && Sound(rows) && HeldThenClose(rows, state)
  {
    ShapeBoundsRows(s);
    var last := |s.rows| - 1;
    RestatedKeeps(s.rows, last, state);
    assert Restated(s.rows, last, state)[..last] == s.rows[..last];
  }

  lemma PlanCloseKeeps(s: Store, intent: Intent, ev: Evidence)
    requires Inv(s) && intent in s.rows && intent.kind.Close? && RouteAllowed(intent, s.word)
    requires PlanClose(s, intent, ev).Ok?
    ensures forall c <- PlanClose(s, intent, ev).value.commits :: Inv(c)
  {
    hide CloseProof, CloseIsFinal, MatchingOrder;
    CloseRestated(s, intent, CloseRejected);
    CloseRestated(s, intent, CloseReconciled);
  }

  lemma PlanKeeps(s: Store, intent: Intent, ev: Evidence)
    requires Inv(s) && intent in s.rows && RouteAllowed(intent, s.word) && PlanFor(s, intent, ev).Ok?
    ensures forall c <- PlanFor(s, intent, ev).value.commits :: Inv(c)
  {
    match intent.kind
    case Entry => PlanEntryKeeps(s, intent, ev);
    case Close => PlanCloseKeeps(s, intent, ev);
    case _ => PlanCancelKeeps(s, intent, ev);
  }

  /** A reconciliation commits what its plan says, or only a halt over unchanged rows. */
  lemma ReconcileCommits(s: Store, id: string, ev: Evidence)
    ensures var r := Reconcile(s, id, ev);
      || r.commits == []
      || (r.result.Err? && !s.word.IsHalted() && Get(s, id).Ok? && RouteAllowed(Get(s, id).value, s.word)
        && (r.commits == [s.(word := HaltedReconciliationContradiction)] || r.commits == [s.(word := HaltedUnexplainedFill)]))
      || (r.result.Ok? && Get(s, id).Ok? && RouteAllowed(Get(s, id).value, s.word) && ValidateCommon(ev).Ok?
        && AssertBinding(Get(s, id).value, ev).Ok? && AllFillsBindPersistedOrders(s.rows, ev)
        && PlanFor(s, Get(s, id).value, ev) == Ok(Plan(r.commits, r.result.value)))
  {
    if Get(s, id).Ok? && ValidateCommon(ev).Ok? && !s.word.IsHalted() {
      var intent := Get(s, id).value;
      var attempt := Attempt(s, intent, ev);
      assert attempt.result.Ok? ==> PlanFor(s, intent, ev) == Ok(Plan(attempt.commits, attempt.result.value));
    }
  }

  lemma ReconcileKeeps(s: Store, id: string, ev: Evidence)
    requires Inv(s)
    ensures forall c <- Reconcile(s, id, ev).commits :: Inv(c)
  {
    ReconcileCommits(s, id, ev);
    hide Reconcile, PlanFor, ValidateCommon, AssertBinding, AllFillsBindPersistedOrders;
    var r := Reconcile(s, id, ev);
    if r.commits != [] {
      var intent := Get(s, id).value;
      if r.result.Ok? {
        PlanKeeps(s, intent, ev);
      } else {
        assert UnderReconciliation(s.rows) by { ShapeBoundsRows(s); }
      }
    }
  }

  // ----- Whole runs -----

  lemma CommitsKeep(s: Store, op: Op)
    requires Inv(s)
    ensures forall c <- Commits(s, op) :: Inv(c)
  {
    match op
    case PrepareOrderOp(a, ev) => PrepareEntryKeeps(s, a, ev);
    case PrepareCancellationOp(entryId, kind, ev) => PrepareCancellationKeeps(s, entryId, kind, ev);
    case PrepareCloseOp(a, ev) => PrepareCloseKeeps(s, a, ev);
    case ClaimOp(id, ev) => ClaimKeeps(s, id, ev);
    case ReconcileOp(id, ev) => ReconcileKeeps(s, id, ev);
  }

  lemma StepKeeps(s: Store, step: Step)
    requires Inv(s)
    ensures Inv(After(s, step))
  {
    CommitsKeep(s, step.op);
  }

  /** Whatever the operations, their order, the evidence and the crashes. */
  lemma {:induction false} RunKeeps(trace: seq<Store>, steps: seq<Step>)
    requires IsRun(trace, steps)
    ensures forall s <- trace :: Inv(s)
  {
    hide After;
    if steps != [] {
      var n := |steps| - 1;
      RunKeeps(trace[..n + 1], steps[..n]);
      assert trace[n] in trace[..n + 1];
      StepKeeps(trace[n], steps[n]);
      assert trace[n + 1] == After(trace[n], steps[n]);
      assert forall s <- trace :: s in trace[..n + 1] || s == trace[n + 1];
    }
  }
}

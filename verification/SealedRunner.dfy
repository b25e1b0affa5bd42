/**
 The sealed one-shot runner: observe, write ahead, sign, dispatch once, reconcile, and close or cancel.
 Its contracts hold in every outcome, death of the process at any point included.
 */
module SealedRunner {
  import opened Wrappers
  import opened VenueEvidence
  import opened SealedVenue
  import opened SealedStore

  datatype Verdict = Unseen | StillOpen | WasFilled | NoFill
  datatype Status = SuccessClosedFlat | CompletedNoFillFlat
  datatype Report = Report(status: Status, runId: string, writes: nat, entryOrderId: Option<string>, closeOrderId: Option<string>)

  // ----- What the durable file and the venue satisfy at every instant -----

  ghost predicate RowsOk(rows: seq<Row>) {
    && (forall i, j | 0 <= i < j < |rows| ::
          && rows[i].id != rows[j].id && rows[i].nonce != rows[j].nonce && rows[i].externalId != rows[j].externalId
          && rows[i].settlementIdentity != rows[j].settlementIdentity)
    && (forall row <- rows ::
          && row.dispatchCount <= 1
          && (row.state.Prepared? <==> row.dispatchCount == 0)
          && (row.payload.Some? ==> row.payloadDigest == Some(DigestOf(row.payload.value))))
  }

  /** An entry first, then a cancellation or a close of the same size on the other side, never both. */
  ghost predicate RolesOk(rows: seq<Row>) {
    && |rows| <= 2
    && (|rows| >= 1 ==> rows[0].role.EntryOrder? && rows[0].side == Some(Buy))
    && (|rows| == 2 ==> !rows[1].role.EntryOrder? && rows[1].targetId == Some(rows[0].id))
    && (|rows| == 2 && rows[1].role.CloseOrder? ==> rows[1].side == Some(Sell) && rows[1].qty == rows[0].qty && rows[1].reduceOnly)
  }

  /** At the instant it left, the intent was claimed once and, for an order, its exact payload was durable. */
  ghost predicate WrittenAhead(send: Send) {
    && send.held.state.Claimed?
    && send.held.dispatchCount == 1
    && (send.held.IsOrder() ==>
      && send.payload.Some? && send.held.payload == send.payload
      && send.held.payloadDigest == Some(DigestOf(send.payload.value))
      && Binds(send.held, send.payload.value))
  }

  /** A cancellation names the venue id of the persisted entry it targets. */
  ghost predicate AimedAtEntry(send: Send, rows: seq<Row>) {
    send.held.role.CancelRequest? ==>
      && send.orderId.Some?
      && exists row <- rows :: row.role.EntryOrder? && send.held.targetId == Some(row.id) && row.venueOrderId == send.orderId
  }

  ghost predicate SentOk(sent: seq<Send>, rows: seq<Row>) {
    && (forall s <- sent :: WrittenAhead(s) && AimedAtEntry(s, rows))
    && (forall i, j | 0 <= i < j < |sent| :: sent[i].held.id != sent[j].held.id)
    && (forall s <- sent :: exists row <- rows :: row.id == s.held.id && row.role == s.held.role && row.dispatchCount == 1)
  }

  ghost predicate Durable(rows: seq<Row>, journal: Option<Journal>, sent: seq<Send>) {
    && RowsOk(rows) && RolesOk(rows) && SentOk(sent, rows)
    && (journal.None? ==> rows == [])
  }

  function HeldIds(sent: seq<Send>): set<string> {
    set s <- sent :: s.held.id
  }

  lemma {:induction false} DistinctSendsCount(sent: seq<Send>)
    requires forall i, j | 0 <= i < j < |sent| :: sent[i].held.id != sent[j].held.id
    ensures |HeldIds(sent)| == |sent|
  {
    if sent != [] {
      var n := |sent| - 1;
      DistinctSendsCount(sent[..n]);
      assert HeldIds(sent) == HeldIds(sent[..n]) + {sent[n].held.id};
    }
  }

  lemma {:induction false} SubsetSize(small: set<string>, large: set<string>)
    requires small <= large
    ensures |small| <= |large|
  {
    if small != {} {
      var x :| x in small;
      SubsetSize(small - {x}, large - {x});
    }
  }

  /** Two requests at most, one per intent; a cancellation and a close are never both among them. */
  lemma SendsAreBounded(rows: seq<Row>, journal: Option<Journal>, sent: seq<Send>)
    requires Durable(rows, journal, sent)
    ensures |sent| <= |rows| <= 2
    ensures forall i, j | 0 <= i < j < |sent| :: sent[i].held.role != sent[j].held.role
    ensures !((exists s <- sent :: s.held.role.CancelRequest?) && (exists s <- sent :: s.held.role.CloseOrder?))
  {
    hide WrittenAhead, AimedAtEntry;
    var ids := set row <- rows :: row.id;
    assert |ids| <= |rows| by {
      assert ids == (if |rows| == 0 then {} else if |rows| == 1 then {rows[0].id} else {rows[0].id, rows[1].id});
    }
    DistinctSendsCount(sent);
    SubsetSize(HeldIds(sent), ids);
    forall i, j | 0 <= i < j < |sent| ensures sent[i].held.role != sent[j].held.role {
      assert sent[i] in sent && sent[j] in sent;
    }
  }

  /** Rewriting one row without touching who it is; a venue id, once known, stays. */
  ghost predicate SameOrder(a: Row, b: Row) {
    && b == a.(state := b.state, venueOrderId := b.venueOrderId, payload := b.payload, payloadDigest := b.payloadDigest,
      settlementIdentity := b.settlementIdentity, dispatchCount := b.dispatchCount)
    && a.dispatchCount <= b.dispatchCount
    && (a.venueOrderId.Some? ==> b.venueOrderId == a.venueOrderId)
  }

  ghost predicate OnlyRow(before: seq<Row>, after: seq<Row>, id: string) {
    && |before| == |after|
    && forall i | 0 <= i < |before| :: (before[i].id != id ==> after[i] == before[i]) && SameOrder(before[i], after[i])
  }

  ghost predicate Sendable(rows: seq<Row>, id: string) {
    exists row <- rows :: row.id == id && row.dispatchCount == 1
  }

  lemma RewriteKeeps(before: seq<Row>, id: string, row: Row, journal: Option<Journal>, sent: seq<Send>)
    requires Durable(before, journal, sent) && Find(before, id).Some?
    requires SameOrder(before[Find(before, id).value], row)
    requires row.dispatchCount <= 1 && (row.state.Prepared? <==> row.dispatchCount == 0)
    requires row.payload.Some? ==> row.payloadDigest == Some(DigestOf(row.payload.value))
    requires forall r <- before :: r.id != id ==> r.settlementIdentity != row.settlementIdentity
    ensures var after := before[Find(before, id).value := row];
      Durable(after, journal, sent) && OnlyRow(before, after, id)
  {
    RewriteKeepsRows(before, id, row);
    RewriteKeepsSends(before, Find(before, id).value, row, sent);
    hide RowsOk, SentOk;
  }

  lemma RewriteKeepsRows(before: seq<Row>, id: string, row: Row)
    requires RowsOk(before) && Find(before, id).Some? && SameOrder(before[Find(before, id).value], row)
    requires row.dispatchCount <= 1 && (row.state.Prepared? <==> row.dispatchCount == 0)
    requires row.payload.Some? ==> row.payloadDigest == Some(DigestOf(row.payload.value))
    requires forall r <- before :: r.id != id ==> r.settlementIdentity != row.settlementIdentity
    ensures RowsOk(before[Find(before, id).value := row])
  {
  }

  lemma RewriteKeepsSends(before: seq<Row>, at: nat, row: Row, sent: seq<Send>)
    requires at < |before| && SentOk(sent, before) && SameOrder(before[at], row) && row.dispatchCount <= 1
    ensures SentOk(sent, before[at := row])
  {
    var after := before[at := row];
    forall s <- sent ensures exists r <- after :: r.id == s.held.id && r.role == s.held.role && r.dispatchCount == 1 {
      var i :| 0 <= i < |before| && before[i].id == s.held.id && before[i].role == s.held.role && before[i].dispatchCount == 1;
      assert after[i] in after;
    }
    forall s <- sent ensures AimedAtEntry(s, after) {
      AimKept(s, before, after);
    }
  }

  lemma AimKept(send: Send, before: seq<Row>, after: seq<Row>)
    requires AimedAtEntry(send, before) && |before| <= |after| && forall i | 0 <= i < |before| :: SameOrder(before[i], after[i])
    ensures AimedAtEntry(send, after)
  {
    if send.held.role.CancelRequest? {
      var i :| 0 <= i < |before| && before[i].role.EntryOrder?
        && send.held.targetId == Some(before[i].id) && before[i].venueOrderId == send.orderId;
      assert SameOrder(before[i], after[i]) && after[i] in after;
    }
  }

  lemma RecordSend(rows: seq<Row>, journal: Option<Journal>, sent: seq<Send>, send: Send)
    requires Durable(rows, journal, sent) && send.held in rows && WrittenAhead(send) && AimedAtEntry(send, rows)
    requires forall s <- sent :: s.held.id != send.held.id
    ensures Durable(rows, journal, sent + [send])
  {
  }

  // ----- Evidence -----

  /** The observation that classified this order as filled in full. */
  ghost predicate FilledBy(row: Row, obs: Observation, who: Identity) {
    && MatchingVenueOrder(row, obs, who).Ok?
    && MatchingVenueOrder(row, obs, who).value.Some?
    && MatchingVenueOrder(row, obs, who).value.value.status.AllFilled?
    && MatchingTrades(row, obs, who).Ok?
    && MatchingTrades(row, obs, who).value != []
    && TradeQty(MatchingTrades(row, obs, who).value) == row.qty
    && (if row.role.CloseOrder? then obs.positions == []
        else HoldsPosition(obs.positions, who, if row.side == Some(Buy) then Long else Short, row.qty))
  }

  /** The observation that classified this order as ended without any fill. */
  ghost predicate UnfilledBy(row: Row, obs: Observation, who: Identity) {
    && MatchingVenueOrder(row, obs, who).Ok?
    && MatchingVenueOrder(row, obs, who).value.Some?
    && var order := MatchingVenueOrder(row, obs, who).value.value;
    && (order.status.Canceled? || order.status.Lapsed? || order.status.Refused?) && order.filledQty == 0.0
    && MatchingTrades(row, obs, who) == Ok([])
    && obs.positions == []
  }

  /** The observation that shows this order resting, its fills so far adding up. */
  ghost predicate OpenBy(row: Row, obs: Observation, who: Identity) {
    && MatchingVenueOrder(row, obs, who).Ok?
    && MatchingVenueOrder(row, obs, who).value.Some?
    && var order := MatchingVenueOrder(row, obs, who).value.value;
    && (order.status.New? || order.status.Untriggered?)
    && MatchingTrades(row, obs, who).Ok? && TradeQty(MatchingTrades(row, obs, who).value) == order.filledQty
  }

  /** What a verdict about an order says of the observation it was reached on. */
  ghost predicate Shows(verdict: Verdict, row: Row, obs: Observation, who: Identity) {
    match verdict
    case Unseen => MatchingVenueOrder(row, obs, who) == Ok(None)
    case StillOpen => OpenBy(row, obs, who)
    case WasFilled => FilledBy(row, obs, who)
    case NoFill => UnfilledBy(row, obs, who) && row.state == if row.role.CloseOrder? then CloseNoFill else EntryNoFill
  }

  /** A state change does not alter who a row is, nor what ended it. */
  lemma EvidenceIgnoresState(row: Row, state: RowState, obs: Observation, who: Identity)
    ensures FilledBy(row.(state := state), obs, who) == FilledBy(row, obs, who)
    ensures UnfilledBy(row.(state := state), obs, who) == UnfilledBy(row, obs, who)
  {
    MatchingTradesIgnoreState(row, state, obs.trades, who, {});
    MatchingOrderIgnoresState(row, state, obs, who);
    hide MatchingVenueOrder, MatchingTradesFrom, HoldsPosition;
  }

  lemma MatchingOrderIgnoresState(row: Row, state: RowState, obs: Observation, who: Identity)
    ensures MatchingVenueOrder(row.(state := state), obs, who) == MatchingVenueOrder(row, obs, who)
  {
    assert forall o: VenueOrder :: OrderBinding(row.(state := state), o, who) == OrderBinding(row, o, who);
    hide OrderBinding;
  }

  lemma {:induction false} MatchingTradesIgnoreState(row: Row, state: RowState, trades: seq<Trade>, who: Identity, taken: set<int>)
    ensures MatchingTradesFrom(row.(state := state), trades, who, taken) == MatchingTradesFrom(row, trades, who, taken)
  {
    if trades != [] {
      assert TradeIsOurs(row.(state := state), trades[0], who) == TradeIsOurs(row, trades[0], who);
      assert TradeBinding(row.(state := state), trades[0], taken) == TradeBinding(row, trades[0], taken);
      hide TradeIsOurs, TradeBinding;
      MatchingTradesIgnoreState(row, state, trades[1..], who, taken);
      MatchingTradesIgnoreState(row, state, trades[1..], who, taken + {trades[0].id});
    }
  }

  /** Trades that sum to nothing are none. */
  lemma NoQuantityNoTrades(row: Row, trades: seq<Trade>, who: Identity)
    requires MatchingTradesFrom(row, trades, who, {}).Ok?
    ensures var found := MatchingTradesFrom(row, trades, who, {}).value;
      TradeQty(found) == 0.0 ==> found == []
  {
    MatchingTradesAreBound(row, trades, who, {});
    PositiveTotal(MatchingTradesFrom(row, trades, who, {}).value);
  }

  lemma {:induction false} PositiveTotal(trades: seq<Trade>)
    requires forall t <- trades :: t.qty > 0.0
    ensures TradeQty(trades) >= 0.0 && (trades != [] ==> TradeQty(trades) > 0.0)
  {
    if trades != [] {
      PositiveTotal(trades[1..]);
    }
  }

  function HistoryOf(history: seq<VenueOrder>, externalId: string): Option<VenueOrder> {
    if history == [] then None
    else if External(history[0].externalId, history[0].externalOrderId) == Ok(externalId) then Some(history[0])
    else HistoryOf(history[1..], externalId)
  }

  predicate HistoryUnique(history: seq<VenueOrder>) {
    && (forall o <- history :: External(o.externalId, o.externalOrderId).Ok?)
    && (forall i, j | 0 <= i < j < |history| ::
          External(history[i].externalId, history[i].externalOrderId) != External(history[j].externalId, history[j].externalOrderId))
  }

  predicate HistoryAgrees(row: Row, o: VenueOrder) {
    if row.state.EntryNoFill? then (o.status.Canceled? || o.status.Lapsed? || o.status.Refused?) && o.filledQty == 0.0
    else o.status.AllFilled?
  }

  /** The ids of the trades of every persisted order, each of which ended as its row says. */
  function ExpectedTradeIds(rows: seq<Row>, obs: Observation, who: Identity): Result<set<int>, string> {
    if rows == [] then Ok({})
    else if !rows[0].IsOrder() then ExpectedTradeIds(rows[1..], obs, who)
    else
      var past := HistoryOf(obs.orderHistory, rows[0].externalId);
      var _ :- Need(past.Some?, "FINAL_HISTORY_MISSING");
      var _ :- Need(HistoryAgrees(rows[0], past.value), "FINAL_HISTORY_MISMATCH");
      var order :- MatchingVenueOrder(rows[0], obs, who);
      var _ :- Need(order.Some?, "FINAL_EXACT_ORDER_MISSING");
      var trades :- MatchingTrades(rows[0], obs, who);
      var rest :- ExpectedTradeIds(rows[1..], obs, who);
      Ok(TradeIds(trades) + rest)
  }

  /** One final round: flat, every order terminal in history, every trade accounted for. */
  function FinalRound(rows: seq<Row>, obs: Observation, who: Identity): Result<set<int>, string> {
    var _ :- Need(obs.openOrders == [] && obs.positions == [], "FINAL_ZERO_FLATNESS_FAILED");
    var _ :- Need(HistoryUnique(obs.orderHistory), "FINAL_HISTORY_DUPLICATE");
    var ids :- ExpectedTradeIds(rows, obs, who);
    var _ :- Need(TradeIds(obs.trades) == ids, "FINAL_TRADE_IDENTITY_MISMATCH");
    Ok(ids)
  }

  /** The last two observations agree, in order, and follow a clock reading past every order's expiry. */
  ghost predicate Barrier(rows: seq<Row>, seen: seq<Observation>, readings: seq<Reading>, who: Identity) {
    && |seen| >= 2
    && seen[|seen| - 2].observedAtMs < seen[|seen| - 1].observedAtMs
    && seen[|seen| - 2].fingerprint == seen[|seen| - 1].fingerprint
    && FinalRound(rows, seen[|seen| - 2], who).Ok?
    && FinalRound(rows, seen[|seen| - 1], who) == FinalRound(rows, seen[|seen| - 2], who)
    && (exists r <- readings :: r.seenBefore <= |seen| - 2 && forall row <- rows | row.IsOrder() :: row.expiryMs < r.timeMs)
    && (forall row <- rows :: !(row.state.Prepared? || row.state.Claimed? || row.state.Ambiguous?))
  }

  /** What a SUCCESS_CLOSED_FLAT report rests on. */
  ghost predicate SuccessProof(rows: seq<Row>, seen: seq<Observation>, readings: seq<Reading>, who: Identity) {
    && |rows| == 2 && rows[1].role.CloseOrder?
    && (exists i, j | 0 <= i < j < |seen| - 2 :: FilledBy(rows[0], seen[i], who) && FilledBy(rows[1], seen[j], who))
    && Barrier(rows, seen, readings, who)
  }

  /** What a COMPLETED_NO_FILL_FLAT report rests on. */
  ghost predicate NoFillProof(rows: seq<Row>, seen: seq<Observation>, readings: seq<Reading>, who: Identity) {
    && rows != [] && (|rows| == 2 ==> rows[1].role.CancelRequest?)
    && (exists i | 0 <= i < |seen| - 2 :: UnfilledBy(rows[0], seen[i], who))
    && Barrier(rows, seen, readings, who)
  }

  ghost predicate BoughtAndSold(entry: Row, entryObs: Observation, close: Row, closeObs: Observation, who: Identity) {
    && MatchingTrades(entry, entryObs, who).Ok? && MatchingTrades(close, closeObs, who).Ok?
    && TradeQty(MatchingTrades(entry, entryObs, who).value) == entry.qty
    && TradeQty(MatchingTrades(close, closeObs, who).value) == entry.qty
    && (forall t <- MatchingTrades(entry, entryObs, who).value :: t.side == Some(Buy) && t.price <= entry.price)
    && (forall t <- MatchingTrades(close, closeObs, who).value :: t.side == Some(Sell) && t.price >= close.price)
  }

  ghost predicate ExactlyTheirTrades(rows: seq<Row>, obs: Observation, who: Identity)
    requires |rows| == 2
  {
    && obs.openOrders == [] && obs.positions == []
    && MatchingTrades(rows[0], obs, who).Ok? && MatchingTrades(rows[1], obs, who).Ok?
    && TradeIds(obs.trades) == TradeIds(MatchingTrades(rows[0], obs, who).value) + TradeIds(MatchingTrades(rows[1], obs, who).value)
  }

  /**
   A reported success had one entry and one close: their trades summed to the same quantity on opposite
   sides when they were classified, and the trades of both final rounds are exactly theirs.
   */
  lemma SuccessMeansNetFlat(rows: seq<Row>, seen: seq<Observation>, readings: seq<Reading>, who: Identity)
    ensures RolesOk(rows) && SuccessProof(rows, seen, readings, who) ==>
      && (exists i, j | 0 <= i < j < |seen| - 2 :: BoughtAndSold(rows[0], seen[i], rows[1], seen[j], who))
      && ExactlyTheirTrades(rows, seen[|seen| - 2], who) && ExactlyTheirTrades(rows, seen[|seen| - 1], who)
  {
    hide FilledBy, FinalRound, BoughtAndSold, ExactlyTheirTrades;
    if RolesOk(rows) && SuccessProof(rows, seen, readings, who) {
      var i, j :| 0 <= i < j < |seen| - 2 && FilledBy(rows[0], seen[i], who) && FilledBy(rows[1], seen[j], who);
      FilledPairIsNet(rows[0], seen[i], rows[1], seen[j], who);
      FinalRoundIsExact(rows, seen[|seen| - 2], who);
      FinalRoundIsExact(rows, seen[|seen| - 1], who);
    }
  }

  lemma FilledPairIsNet(entry: Row, entryObs: Observation, close: Row, closeObs: Observation, who: Identity)
    requires FilledBy(entry, entryObs, who) && FilledBy(close, closeObs, who)
    requires entry.side == Some(Buy) && close.side == Some(Sell) && entry.qty == close.qty
    ensures BoughtAndSold(entry, entryObs, close, closeObs, who)
  {
    MatchingTradesAreBound(entry, entryObs.trades, who, {});
    MatchingTradesAreBound(close, closeObs.trades, who, {});
    hide MatchingTradesFrom, MatchingVenueOrder, HoldsPosition;
  }

  lemma FinalRoundIsExact(rows: seq<Row>, obs: Observation, who: Identity)
    requires |rows| == 2 && rows[0].IsOrder() && rows[1].IsOrder() && FinalRound(rows, obs, who).Ok?
    ensures ExactlyTheirTrades(rows, obs, who)
  {
    hide HistoryUnique, HistoryAgrees, HistoryOf;
    TwoOrdersExpected(rows, obs, who);
  }

  lemma TwoOrdersExpected(rows: seq<Row>, obs: Observation, who: Identity)
    requires |rows| == 2 && rows[0].IsOrder() && rows[1].IsOrder() && ExpectedTradeIds(rows, obs, who).Ok?
    ensures MatchingTrades(rows[0], obs, who).Ok? && MatchingTrades(rows[1], obs, who).Ok?
    ensures ExpectedTradeIds(rows, obs, who).value
      == TradeIds(MatchingTrades(rows[0], obs, who).value) + TradeIds(MatchingTrades(rows[1], obs, who).value)
  {
    hide MatchingVenueOrder, MatchingTrades, HistoryOf, HistoryAgrees;
    var rest := rows[1..];
    assert rest[0] == rows[1] && rest[1..] == [];
    assert ExpectedTradeIds([], obs, who) == Ok({});
    assert ExpectedTradeIds(rest, obs, who).value == TradeIds(MatchingTrades(rows[1], obs, who).value);
  }

  // ----- The runner -----

  function ExternalIds(rows: seq<Row>): set<string> {
    set row <- rows | row.IsOrder() :: row.externalId
  }

  ghost predicate HasRow(rows: seq<Row>, id: string, close: bool) {
    exists row <- rows :: row.id == id && row.dispatchCount == 1 && row.IsOrder() && (row.role.CloseOrder? <==> close)
  }

  ghost predicate ShowsRow(verdict: Verdict, rows: seq<Row>, id: string, obs: Observation, who: Identity) {
    exists row <- rows :: row.id == id && Shows(verdict, row, obs, who)
  }

  ghost predicate IsLast(seen: seq<Observation>, obs: Observation) {
    seen != [] && seen[|seen| - 1] == obs
  }

  /** The verdict rests on the last observation. */
  ghost predicate ShowsLast(verdict: Verdict, rows: seq<Row>, id: string, seen: seq<Observation>, who: Identity) {
    seen != [] && ShowsRow(verdict, rows, id, seen[|seen| - 1], who)
  }

  /** Nothing changed, apart from the venue id of this order having become known. */
  ghost predicate OnlyLearnt(before: seq<Row>, after: seq<Row>, id: string) {
    || after == before
    || (Find(before, id).Some? && var at := Find(before, id).value;
        exists orderId :: after == before[at := before[at].(state := Accepted, venueOrderId := Some(orderId))])
  }

  /** One more observation is due for an order whose venue id is not known yet. */
  ghost function Unlocated(rows: seq<Row>, id: string): (n: nat)
    ensures n <= 1
  {
    if Find(rows, id).Some? && rows[Find(rows, id).value].venueOrderId.None? then 1 else 0
  }

  lemma FindRow(rows: seq<Row>, row: Row)
    requires RowsOk(rows) && row in rows
    ensures Find(rows, row.id).Some? && rows[Find(rows, row.id).value] == row
  {
  }

  /** The largest expiry among the orders. */
  function LastExpiry(rows: seq<Row>): int {
    if rows == [] then 0
    else if !rows[0].IsOrder() then LastExpiry(rows[1..])
    else if (forall row <- rows[1..] :: !row.IsOrder()) || LastExpiry(rows[1..]) < rows[0].expiryMs then rows[0].expiryMs
    else LastExpiry(rows[1..])
  }

  lemma {:induction false} LastExpiryBounds(rows: seq<Row>)
    ensures forall row <- rows | row.IsOrder() :: row.expiryMs <= LastExpiry(rows)
  {
    if rows != [] {
      LastExpiryBounds(rows[1..]);
      assert rows == [rows[0]] + rows[1..];
    }
  }

  /** Nobody's identity changed. */
  ghost predicate SameOrders(before: seq<Row>, after: seq<Row>) {
    |before| == |after| && forall i | 0 <= i < |before| :: SameOrder(before[i], after[i])
  }

  /** A change of one row after a change of others, none of them in identity. */
  lemma SameOrdersJoin(before: seq<Row>, mid: seq<Row>, after: seq<Row>, id: string)
    requires (mid == before || SameOrders(before, mid)) && OnlyRow(mid, after, id)
    ensures SameOrders(before, after)
  {
  }

  /** The entry proven unfilled is the first of the two rows, also once the second is marked. */
  lemma ProvenEntry(before: seq<Row>, placed: seq<Row>, proven: seq<Row>, seen: seq<Observation>, who: Identity)
    requires |before| == 2 && SameOrders(before, placed) && SameOrders(placed, proven) && before[0].id != before[1].id
    requires ShowsLast(NoFill, proven, before[0].id, seen, who)
    ensures |proven| == 2 && proven[1].id == before[1].id && proven[1].role == before[1].role
    ensures seen != [] && UnfilledBy(proven[0], seen[|seen| - 1], who) && proven[0].id == before[0].id
  {
    hide UnfilledBy;
    assert SameOrder(before[0], placed[0]) && SameOrder(placed[0], proven[0]);
    assert SameOrder(before[1], placed[1]) && SameOrder(placed[1], proven[1]);
  }

  lemma SecondMarked(before: seq<Row>, after: seq<Row>)
    requires |before| == 2 && before[0].id != before[1].id && OnlyRow(before, after, before[1].id)
    ensures |after| == 2 && after[0] == before[0] && after[1].id == before[1].id && after[1].role == before[1].role
  {
    assert SameOrder(before[1], after[1]);
  }

  lemma ProvenClose(rows: seq<Row>, seen: seq<Observation>, who: Identity)
    requires |rows| == 2 && rows[0].id != rows[1].id && ShowsLast(WasFilled, rows, rows[1].id, seen, who)
    ensures FilledBy(rows[1], seen[|seen| - 1], who)
  {
    hide FilledBy;
  }

  lemma AppendKeeps(rows: seq<Row>, draft: Row, journal: Option<Journal>, sent: seq<Send>)
    requires Durable(rows, journal, sent) && journal.Some? && IdentityFree(rows, draft)
    requires draft.state.Prepared? && draft.dispatchCount == 0 && draft.payload.None? && RolesOk(rows + [draft])
    ensures Durable(rows + [draft], journal, sent)
  {
    forall s <- sent ensures exists r <- rows + [draft] :: r.id == s.held.id && r.role == s.held.role && r.dispatchCount == 1 {
      var r :| r in rows && r.id == s.held.id && r.role == s.held.role && r.dispatchCount == 1;
      assert r in rows + [draft];
    }
    forall s <- sent ensures AimedAtEntry(s, rows + [draft]) {
      AimKept(s, rows, rows + [draft]);
    }
  }

  lemma HasRowKept(before: seq<Row>, after: seq<Row>, id: string, close: bool)
    requires HasRow(before, id, close) && OnlyRow(before, after, id) && RowsOk(after)
    ensures HasRow(after, id, close)
  {
    var i :| 0 <= i < |before| && before[i].id == id && before[i].dispatchCount == 1
      && before[i].IsOrder() && (before[i].role.CloseOrder? <==> close);
    assert after[i] in after;
  }

  lemma SameRowRole(before: seq<Row>, after: seq<Row>, row: Row, close: bool)
    requires RowsOk(before) && RowsOk(after) && (before == after || OnlyRow(before, after, row.id))
    requires exists r <- before :: r.id == row.id && r.IsOrder() && (r.role.CloseOrder? <==> close)
    requires row in after && row.dispatchCount == 1
    ensures HasRow(after, row.id, close) && row.IsOrder()
  {
    var i :| 0 <= i < |before| && before[i].id == row.id && before[i].IsOrder() && (before[i].role.CloseOrder? <==> close);
    var j :| 0 <= j < |after| && after[j] == row;
    assert SameOrder(before[i], after[i]);
    assert i == j;
  }

  /** The venue id of an order is learnt once. */
  lemma UnlocatedFalls(before: seq<Row>, after: seq<Row>, id: string, journal: Option<Journal>, sent: seq<Send>)
    requires OnlyRow(before, after, id) && Durable(after, journal, sent) && RowsOk(before)
    ensures Unlocated(after, id) <= Unlocated(before, id)
  {
    if Find(after, id).Some? {
      var at := Find(after, id).value;
      assert SameOrder(before[at], after[at]);
      FindRow(before, before[at]);
    }
  }

  lemma StillTheOrder(before: seq<Row>, after: seq<Row>, row: Row, close: bool)
    requires RowsOk(before) && RowsOk(after) && OnlyRow(before, after, row.id) && row in after && HasRow(before, row.id, close)
    ensures row.dispatchCount == 1 && row.IsOrder() && (row.role.CloseOrder? <==> close)
  {
    var i :| 0 <= i < |before| && before[i].id == row.id && before[i].dispatchCount == 1
      && before[i].IsOrder() && (before[i].role.CloseOrder? <==> close);
    var j :| 0 <= j < |after| && after[j] == row;
    assert SameOrder(before[i], after[i]);
    assert i == j;
    assert row in after;
  }

  lemma OnlyRowJoins(before: seq<Row>, mid: seq<Row>, after: seq<Row>, id: string)
    requires (mid == before || OnlyRow(before, mid, id)) && OnlyRow(mid, after, id)
    ensures OnlyRow(before, after, id)
  {
  }

  lemma ValidationStays(before: Row, after: Row, p: SignedPayload, who: Identity)
    requires SameOrder(before, after)
    ensures ValidateSignedPayload(after, p, who) == ValidateSignedPayload(before, p, who)
  {
  }

  lemma BoundPayload(rows: seq<Row>, row: Row, payload: SignedPayload, who: Identity)
    requires RowsOk(rows) && row in rows && row.payload == Some(payload) && row.state.Claimed? && row.IsOrder()
    requires ValidateSignedPayload(row, payload, who).Ok?
    ensures WrittenAhead(Send(row, Some(payload), None))
  {
  }

  lemma HasRowUntouched(before: seq<Row>, after: seq<Row>, touched: string, id: string)
    requires OnlyRow(before, after, touched) && id != touched && HasRow(before, id, false)
    ensures HasRow(after, id, false)
  {
    var i :| 0 <= i < |before| && before[i].id == id && before[i].dispatchCount == 1 && before[i].IsOrder() && !before[i].role.CloseOrder?;
    assert after[i] == before[i] && after[i] in after;
  }

  lemma SendableUntouched(before: seq<Row>, after: seq<Row>, touched: string, id: string)
    requires OnlyRow(before, after, touched) && id != touched && Sendable(before, id)
    ensures Sendable(after, id)
  {
    var i :| 0 <= i < |before| && before[i].id == id && before[i].dispatchCount == 1;
    assert after[i] == before[i] && after[i] in after;
  }

  lemma TwoRows(rows: seq<Row>, journal: Option<Journal>, sent: seq<Send>)
    requires Durable(rows, journal, sent) && |rows| == 2
    ensures rows[0].id != rows[1].id && rows[0].role.EntryOrder? && !rows[1].role.EntryOrder?
  {
  }

  lemma CancelOf(rows: seq<Row>, journal: Option<Journal>, sent: seq<Send>)
    requires Durable(rows, journal, sent) && |rows| == 2 && rows[1].role.CancelRequest?
    ensures rows[0].id != rows[1].id && rows[0].role.EntryOrder? && rows[1].targetId == Some(rows[0].id)
  {
  }

  lemma OnlyEntry(before: seq<Row>, after: seq<Row>, id: string)
    requires |before| == 1 && before[0].role.EntryOrder? && OnlyRow(before, after, id) && HasRow(after, id, false)
    ensures |after| == 1 && after[0].id == id && after[0].role.EntryOrder? && after[0].dispatchCount == 1
    ensures forall row <- after :: row == after[0]
  {
    assert SameOrder(before[0], after[0]);
  }

  lemma DurableRows(rows: seq<Row>, journal: Option<Journal>, sent: seq<Send>)
    requires Durable(rows, journal, sent)
    ensures RowsOk(rows)
  {
  }

  lemma EntryStaysDispatched(before: seq<Row>, after: seq<Row>, journal: Option<Journal>, sent: seq<Send>)
    requires SameOrders(before, after) && |before| == 2 && before[0].dispatchCount == 1 && Durable(after, journal, sent)
    ensures HasRow(after, before[0].id, false)
  {
    assert SameOrder(before[0], after[0]) && after[0] in after;
  }

  lemma ClaimedSecond(before: seq<Row>, after: seq<Row>, claimed: Row)
    requires |before| == 2 && RowsOk(before) && before[1].id == claimed.id
    requires (after == before || OnlyRow(before, after, claimed.id)) && RowsOk(after) && claimed in after
    ensures after == [before[0], claimed]
  {
  }

  /** A prepared row has never been sent. */
  lemma NotYetSent(rows: seq<Row>, sent: seq<Send>, row: Row)
    requires RowsOk(rows) && SentOk(sent, rows) && row in rows && row.dispatchCount == 0
    ensures forall s <- sent :: s.held.id != row.id
  {
  }

  lemma SendableRow(rows: seq<Row>, id: string, close: bool)
    requires HasRow(rows, id, close)
    ensures Sendable(rows, id)
  {
  }

  lemma Untouched(rows: seq<Row>, id: string)
    ensures OnlyRow(rows, rows, id) && OnlyLearnt(rows, rows, id)
  {
  }

  lemma NothingFound(rows: seq<Row>, row: Row, obs: Observation, who: Identity)
    requires row in rows && row.venueOrderId.None?
    requires row.externalId in obs.exactByExternal ==> obs.exactByExternal[row.externalId] == []
    ensures ShowsRow(Unseen, rows, row.id, obs, who)
  {
    assert Shows(Unseen, row, obs, who);
  }

  lemma FoundOrderIsKnown(row: Row, obs: Observation, who: Identity)
    requires row.venueOrderId.Some?
    ensures MatchingVenueOrder(row, obs, who).Ok? && MatchingVenueOrder(row, obs, who).value.Some? ==>
      !MatchingVenueOrder(row, obs, who).value.value.status.Unknown?
  {
  }

  lemma BecameLocated(before: seq<Row>, after: seq<Row>, was: Row, now: Row)
    requires RowsOk(before) && RowsOk(after) && was in before && now in after && was.id == now.id
    requires was.venueOrderId.None? && now.venueOrderId.Some?
    ensures Unlocated(before, was.id) == 1 && Unlocated(after, was.id) == 0
  {
    FindRow(before, was);
    FindRow(after, now);
  }

  lemma ClaimKeeps(rows: seq<Row>, id: string, journal: Option<Journal>, sent: seq<Send>)
    requires Durable(rows, journal, sent) && Find(rows, id).Some? && rows[Find(rows, id).value].state.Prepared?
    ensures var at := Find(rows, id).value;
      var after := rows[at := rows[at].(state := Claimed, dispatchCount := rows[at].dispatchCount + 1)];
      Durable(after, journal, sent) && OnlyRow(rows, after, id) && rows[at].dispatchCount == 0
    ensures forall s <- sent :: s.held.id != id
  {
    var row := rows[Find(rows, id).value];
    assert row in rows && row.dispatchCount == 0;
    NotYetSent(rows, sent, row);
    hide RolesOk, SentOk, OnlyRow;
    RewriteKeeps(rows, id, row.(state := Claimed, dispatchCount := row.dispatchCount + 1), journal, sent);
  }

  // ----- The terms of an entry and of a close -----

  /** The order expires a fixed while after a clock reading, taken after one at which the observation was fresh. */
  ghost predicate FreshAt(row: Row, obs: Observation, readings: seq<Reading>) {
    && (exists r <- readings :: ValidateFresh(obs, r.timeMs).Ok?)
    && (exists r <- readings :: row.expiryMs == r.timeMs + SHORT_EXPIRY_MS)
  }

  ghost predicate EntryTerms(row: Row, obs: Observation) {
    && |obs.fees| == 1 && obs.asks != [] && obs.bids != [] && |obs.leverage| == 1 && obs.leverage[0] > 0.0
    && var ask, bid := obs.asks[0], obs.bids[0];
    && row.side == Some(Buy) && !row.reduceOnly
    && row.qty == obs.market.minOrderSize && row.price == ask.price > bid.price > 0.0 && row.fee == obs.fees[0]
    && row.qty <= ask.qty && row.qty <= bid.qty && row.qty * row.price <= MAX_NOTIONAL_USD
    && ValidateLimitPrice(obs.market, Buy, row.price).Ok?
    && obs.collateralName == obs.market.collateral
    && row.qty * row.price * (1.0 + row.fee) + row.qty * bid.price * (1.0 + row.fee) <= obs.availableForTrade
  }

  datatype Offer = Offer(side: Side, qty: real, price: real, fee: real)

  /** The whole observed long position, sold at a best bid that has room for it. */
  ghost predicate OfferOk(o: Offer, held: real, obs: Observation, who: Identity) {
    && |obs.fees| == 1 && obs.asks != [] && obs.bids != [] && obs.openOrders == []
    && o.qty == held && HoldsPosition(obs.positions, who, Long, o.qty)
    && o.side.Sell? && o.fee == obs.fees[0]
    && o.price == obs.bids[0].price > 0.0 && o.price < obs.asks[0].price
    && o.qty <= obs.bids[0].qty && o.qty * o.price <= MAX_NOTIONAL_USD
    && ValidateLimitPrice(obs.market, Sell, o.price).Ok?
  }

  ghost predicate CloseTerms(row: Row, entry: Row, obs: Observation, who: Identity) {
    row.reduceOnly && row.side == Some(Sell) && OfferOk(Offer(Sell, row.qty, row.price, row.fee), entry.qty, obs, who)
  }

  lemma IsFresh(row: Row, obs: Observation, checked: Reading, last: Reading, readings: seq<Reading>)
    requires checked in readings && last in readings
    requires ValidateFresh(obs, checked.timeMs).Ok? && row.expiryMs == last.timeMs + SHORT_EXPIRY_MS
    ensures FreshAt(row, obs, readings)
  {
  }

  class SealedLifecycleRunner {
    const file: StoreFile
    const io: VenueIO
    const who: Identity
    const runId: string
    var lastObservation: Option<Observation>
    var writes: nat

    ghost predicate Inv()
      reads this, file, io
    {
      && Durable(file.rows, file.journal, io.sent)
      && file.journal == Some(Journal(runId, Started))
      && |io.sent| <= writes
    }

    /** Records only grow, and the journal row of this run stays. */
    twostate predicate Grew()
      reads file, io
    {
      old(io.seen) <= io.seen && old(io.readings) <= io.readings && file.journal == old(file.journal)
    }

    constructor (file: StoreFile, io: VenueIO, who: Identity, runId: string)
      requires Durable(file.rows, file.journal, io.sent) && file.journal == Some(Journal(runId, Started)) && io.sent == []
      ensures this.file == file && this.io == io && this.who == who && this.runId == runId
      ensures Inv() && writes == 0
    {
      this.file, this.io, this.who, this.runId := file, io, who, runId;
      lastObservation, writes := None, 0;
    }

    method Observe() returns (f: Fate<Observation>)
      requires Inv()
      modifies io`seen, io`readings
      ensures Inv() && Grew() && |io.seen| <= |old(io.seen)| + 1
      ensures f.Done? ==> io.seen == old(io.seen) + [f.value] && IsLast(io.seen, f.value)
      ensures f.Done? ==> f.value.accountActive && NoUnrelated(f.value, who, ExternalIds(file.rows))
      ensures f.Done? ==> exists r <- io.readings :: r.seenBefore == |io.seen| && ValidateFresh(f.value, r.timeMs).Ok?
    {
      var obs :- io.Observe();
      var now := io.Now();
      assert Reading(now, |io.seen|) in io.readings;
      var _ :- Lift(ValidateFresh(obs, now));
      if !obs.accountActive { return Fate.Raised("ACCOUNT_INACTIVE"); }
      if !NoUnrelated(obs, who, ExternalIds(file.rows)) { return Fate.Raised("UNRELATED_ACCOUNT_STATE"); }
      return Done(obs);
    }

    /** Change the state of a dispatched row. */
    method Mark(id: string, state: RowState, next: Option<Phase>) returns (f: Fate<Row>)
      requires Inv() && Sendable(file.rows, id) && !state.Prepared?
      modifies file`rows, file`phase
      ensures Inv() && OnlyRow(old(file.rows), file.rows, id)
      ensures f.Done? ==> f.value in file.rows && f.value.id == id
      ensures f.Done? ==> Find(old(file.rows), id).Some?
      ensures f.Done? ==> f.value == old(file.rows)[Find(old(file.rows), id).value].(state := state)
      ensures Sendable(file.rows, id)
    {
      ghost var row :| row in file.rows && row.id == id && row.dispatchCount == 1;
      FindRow(file.rows, row);
      RewriteKeeps(file.rows, id, row.(state := state), file.journal, io.sent);
      ghost var at := Find(file.rows, id).value;
      f := file.Mark(id, state, next);
      assert file.rows[at] in file.rows;
    }

    method MarkAccepted(id: string, orderId: string, externalId: string) returns (f: Fate<Row>)
      requires Inv() && Sendable(file.rows, id)
      modifies file`rows
      ensures Inv() && OnlyRow(old(file.rows), file.rows, id) && OnlyLearnt(old(file.rows), file.rows, id)
      ensures f.Done? ==> f.value in file.rows && f.value.id == id && f.value.venueOrderId == Some(orderId)
      ensures Sendable(file.rows, id)
    {
      ghost var row :| row in file.rows && row.id == id && row.dispatchCount == 1;
      FindRow(file.rows, row);
      if row.venueOrderId.None? {
        RewriteKeeps(file.rows, id, row.(state := Accepted, venueOrderId := Some(orderId)), file.journal, io.sent);
      }
      ghost var at := Find(file.rows, id).value;
      f := file.MarkAccepted(id, orderId, externalId);
      assert file.rows[at] in file.rows;
    }

    /** Learn the venue id of an order whose write was ambiguous, and look again by that id. */
    method Resolve(id: string, first: Observation) returns (f: Fate<Option<(Row, Observation)>>)
      requires Inv() && Sendable(file.rows, id)
      requires IsLast(io.seen, first)
      modifies file`rows, io`seen, io`readings
      ensures Inv() && Grew() && OnlyRow(old(file.rows), file.rows, id) && OnlyLearnt(old(file.rows), file.rows, id)
      ensures |io.seen| + Unlocated(file.rows, id) <= |old(io.seen)| + Unlocated(old(file.rows), id)
      ensures f.Done? && f.value.None? ==>
        io.seen == old(io.seen) && file.rows == old(file.rows) && ShowsRow(Unseen, file.rows, id, first, who)
      ensures f.Done? && f.value.Some? ==>
        && f.value.value.0 in file.rows && f.value.value.0.id == id && f.value.value.0.venueOrderId.Some?
        && IsLast(io.seen, f.value.value.1)
    {
      hide NoUnrelated, ValidateFresh, ExternalIds, Durable, OnlyRow, OnlyLearnt, Unlocated, ShowsRow, IsLast;
      ghost var before := file.rows;
      ghost var row :| row in file.rows && row.id == id;
      DurableRows(file.rows, file.journal, io.sent);
      FindRow(file.rows, row);
      Untouched(file.rows, id);
      hide RowsOk;
      var current := file.rows[Find(file.rows, id).value];
      if current.venueOrderId.Some? { return Done(Some((current, first))); }
      var found := if current.externalId in first.exactByExternal then first.exactByExternal[current.externalId] else [];
      if |found| > 1 { return Fate.Raised("EXACT_EXTERNAL_ORDER_AMBIGUOUS"); }
      if found == [] {
        NothingFound(file.rows, current, first, who);
        return Done(None);
      }
      var accepted := MarkAccepted(id, found[0].id, current.externalId);
      UnlocatedFalls(before, file.rows, id, file.journal, io.sent);
      current :- accepted;
      DurableRows(file.rows, file.journal, io.sent);
      BecameLocated(before, file.rows, row, current);
      var obs :- Observe();
      return Done(Some((current, obs)));
    }

    method ConfirmFilled(current: Row, obs: Observation, trades: seq<Trade>) returns (f: Fate<()>)
      requires Inv() && current in file.rows && current.dispatchCount == 1 && current.IsOrder()
      requires MatchingVenueOrder(current, obs, who).Ok? && MatchingVenueOrder(current, obs, who).value.Some?
      requires MatchingVenueOrder(current, obs, who).value.value.status.AllFilled?
      requires MatchingTrades(current, obs, who) == Ok(trades)
      modifies file`rows, file`phase
      ensures Inv() && OnlyRow(old(file.rows), file.rows, current.id)
      ensures f.Done? ==> ShowsRow(WasFilled, file.rows, current.id, obs, who)
    {
      hide Durable, MatchingVenueOrder, MatchingTrades;
      var close := current.role.CloseOrder?;
      if TradeQty(trades) != current.qty { return Fate.Raised("FILLED_ORDER_QUANTITY_MISMATCH"); }
      if trades == [] { return Fate.Raised("FILLED_TRADE_MISSING"); }
      if close {
        if obs.positions != [] { return Fate.Raised("CLOSE_POSITION_NOT_FLAT"); }
      } else if !HoldsPosition(obs.positions, who, if current.side == Some(Buy) then Long else Short, current.qty) {
        return Fate.Raised("POSITION_BINDING_MISMATCH");
      }
      var state := if close then CloseReconciled else EntryReconciled;
      EvidenceIgnoresState(current, state, obs, who);
      assert Shows(WasFilled, current.(state := state), obs, who);
      DurableRows(file.rows, file.journal, io.sent);
      FindRow(file.rows, current);
      hide MatchingVenueOrder, MatchingTrades, Shows, Durable, RowsOk, OnlyRow;
      var _ :- Mark(current.id, state, Some(Exposed));
      return Done(());
    }

    method ConfirmNoFill(current: Row, obs: Observation, trades: seq<Trade>) returns (f: Fate<()>)
      requires Inv() && current in file.rows && current.dispatchCount == 1 && current.IsOrder()
      requires MatchingVenueOrder(current, obs, who).Ok? && MatchingVenueOrder(current, obs, who).value.Some?
      requires var order := MatchingVenueOrder(current, obs, who).value.value;
        (order.status.Canceled? || order.status.Lapsed? || order.status.Refused?) && order.filledQty == TradeQty(trades)
      requires MatchingTrades(current, obs, who) == Ok(trades)
      modifies file`rows, file`phase
      ensures Inv() && OnlyRow(old(file.rows), file.rows, current.id)
      ensures f.Done? ==> ShowsRow(NoFill, file.rows, current.id, obs, who)
    {
      hide Durable, MatchingVenueOrder, MatchingTradesFrom;
      var close := current.role.CloseOrder?;
      if TradeQty(trades) != 0.0 || obs.positions != [] { return Fate.Raised("TERMINAL_ORDER_POSITION_CONTRADICTION"); }
      var state := if close then CloseNoFill else EntryNoFill;
      NoQuantityNoTrades(current, obs.trades, who);
      EvidenceIgnoresState(current, state, obs, who);
      assert Shows(NoFill, current.(state := state), obs, who);
      DurableRows(file.rows, file.journal, io.sent);
      FindRow(file.rows, current);
      hide MatchingVenueOrder, MatchingTrades, Shows, Durable, RowsOk, OnlyRow;
      var _ :- Mark(current.id, state, Some(if close then Exposed else FlatPendingExpiry));
      return Done(());
    }

    method Classify(current: Row, obs: Observation) returns (f: Fate<Verdict>)
      requires Inv() && current in file.rows && current.dispatchCount == 1 && current.IsOrder()
      requires current.venueOrderId.Some?
      modifies file`rows, file`phase
      ensures Inv() && OnlyRow(old(file.rows), file.rows, current.id)
      ensures f.Done? ==> ShowsRow(f.value, file.rows, current.id, obs, who)
      ensures f.Done? && (f.value.Unseen? || f.value.StillOpen?) ==> file.rows == old(file.rows)
    {
      hide Durable, MatchingTrades, FilledBy, UnfilledBy;
      FoundOrderIsKnown(current, obs, who);
      Untouched(file.rows, current.id);
      hide MatchingVenueOrder, OnlyRow, OnlyLearnt;
      var order :- Lift(MatchingVenueOrder(current, obs, who));
      if order.None? {
        assert Shows(Unseen, current, obs, who);
        return Done(Unseen);
      }
      var collected := CollectTrades(current, obs, who);
      var trades :- Lift(collected);
      if TradeQty(trades) != order.value.filledQty { return Fate.Raised("ORDER_TRADE_QUANTITY_CONTRADICTION"); }
      assert order.value.status.New? || order.value.status.Untriggered? ==> Shows(StillOpen, current, obs, who);
      match order.value.status {
        case AllFilled =>
          var _ :- ConfirmFilled(current, obs, trades);
          return Done(WasFilled);
        case Canceled | Lapsed | Refused =>
          var _ :- ConfirmNoFill(current, obs, trades);
          return Done(NoFill);
        case PartlyFilled => return Fate.Raised("PARTIAL_FILL_REQUIRES_MANUAL_RECOVERY");
        case _ => return Done(StillOpen);
      }
    }

    /** Find the venue order of a dispatched intent, classify it, and persist the classification. */
    method ResolveAndClassify(id: string, first: Observation, close: bool) returns (f: Fate<(Verdict, Observation)>)
      requires Inv() && HasRow(file.rows, id, close)
      requires IsLast(io.seen, first)
      modifies file`rows, file`phase, io`seen, io`readings
      ensures Inv() && Grew() && OnlyRow(old(file.rows), file.rows, id)
      ensures |io.seen| + Unlocated(file.rows, id) <= |old(io.seen)| + Unlocated(old(file.rows), id)
      ensures f.Done? ==> IsLast(io.seen, f.value.1) && ShowsRow(f.value.0, file.rows, id, f.value.1, who)
      ensures f.Done? && (f.value.0.Unseen? || f.value.0.StillOpen?) ==> OnlyLearnt(old(file.rows), file.rows, id)
    {
      hide NoUnrelated, ValidateFresh, ExternalIds, Shows, OnlyLearnt, IsLast;
      ghost var before := file.rows;
      assert Sendable(before, id);
      var found :- Resolve(id, first);
      if found.None? { return Done((Unseen, first)); }
      var (current, obs) := found.value;
      DurableRows(before, file.journal, io.sent);
      DurableRows(file.rows, file.journal, io.sent);
      StillTheOrder(before, file.rows, current, close);
      ghost var learnt := file.rows;
      hide Durable, HasRow, Sendable;
      var verdict := Classify(current, obs);
      UnlocatedFalls(learnt, file.rows, id, file.journal, io.sent);
      OnlyRowJoins(before, learnt, file.rows, id);
      var outcome :- verdict;
      return Done((outcome, obs));
    }

    /** One observation, and a verdict on it. */
    method ReconcileOnce(id: string, close: bool) returns (f: Fate<(Observation, Verdict, Observation)>)
      requires Inv() && HasRow(file.rows, id, close)
      modifies file`rows, file`phase, io`seen, io`readings
      ensures Inv() && Grew() && OnlyRow(old(file.rows), file.rows, id) && HasRow(file.rows, id, close)
      ensures |io.seen| + Unlocated(file.rows, id) <= |old(io.seen)| + 1 + Unlocated(old(file.rows), id)
      ensures f.Done? ==> |io.seen| > |old(io.seen)| && IsLast(io.seen, f.value.2)
      ensures f.Done? ==> ShowsLast(f.value.1, file.rows, id, io.seen, who)
    {
      hide ShowsRow, Durable, HasRow, ValidateFresh, NoUnrelated, ExternalIds;
      var seen :- Observe();
      ghost var before := file.rows;
      var found := ResolveAndClassify(id, seen, close);
      DurableRows(file.rows, file.journal, io.sent);
      HasRowKept(before, file.rows, id, close);
      var outcome :- found;
      return Done((seen, outcome.0, outcome.1));
    }

    /** Five attempts at most, hence six observations: one more is taken when the venue id is learnt. */
    method Reconcile(id: string, close: bool) returns (f: Fate<(Verdict, Observation)>)
      requires Inv() && HasRow(file.rows, id, close)
      modifies file`rows, file`phase, io`seen, io`readings
      ensures Inv() && Grew() && OnlyRow(old(file.rows), file.rows, id) && HasRow(file.rows, id, close)
      ensures |io.seen| <= |old(io.seen)| + MAX_RECONCILE_READS + Unlocated(old(file.rows), id)
      ensures f.Done? ==> !f.value.0.Unseen? && |io.seen| > |old(io.seen)|
      ensures f.Done? ==> ShowsLast(f.value.0, file.rows, id, io.seen, who)
      ensures f.Done? && !f.value.0.StillOpen? ==> IsLast(io.seen, f.value.1)
    {
      Untouched(file.rows, id);
      hide ShowsLast, IsLast, Durable, HasRow, OnlyRow, OnlyLearnt, Unlocated;
      var last: Observation := *;
      var verdict := Unseen;
      for attempt := 0 to MAX_RECONCILE_READS
        invariant Inv() && Grew() && OnlyRow(old(file.rows), file.rows, id) && HasRow(file.rows, id, close)
        invariant |io.seen| + Unlocated(file.rows, id) <= |old(io.seen)| + attempt + Unlocated(old(file.rows), id)
        invariant attempt == 0 ==> verdict == Unseen
        invariant attempt > 0 ==> |io.seen| > |old(io.seen)| && ShowsLast(verdict, file.rows, id, io.seen, who)
      {
        ghost var before := file.rows;
        var found := ReconcileOnce(id, close);
        OnlyRowJoins(old(file.rows), before, file.rows, id);
        var outcome :- found;
        last, verdict := outcome.0, outcome.1;
        if verdict.WasFilled? || verdict.NoFill? { return Done((verdict, outcome.2)); }
      }
      if !verdict.StillOpen? { return Fate.Raised("ORDER_OUTCOME_NOT_VISIBLE"); }
      return Done((StillOpen, last));
    }

    // ----- Write-ahead dispatch -----

    method ClaimRow(id: string, expected: Phase, next: Phase) returns (f: Fate<Row>)
      requires Inv()
      modifies file`rows, file`phase
      ensures Inv() && (file.rows == old(file.rows) || OnlyRow(old(file.rows), file.rows, id))
      ensures f.Done? ==> f.value in file.rows && f.value.id == id && f.value.state.Claimed? && f.value.dispatchCount == 1
      ensures f.Done? ==> Find(old(file.rows), id).Some?
      ensures f.Done? ==> f.value == old(file.rows)[Find(old(file.rows), id).value].(state := Claimed, dispatchCount := 1)
      ensures f.Done? ==> forall s <- io.sent :: s.held.id != id
    {
      ghost var at := Find(file.rows, id);
      if at.Some? && file.rows[at.value].state.Prepared? {
        ClaimKeeps(file.rows, id, file.journal, io.sent);
      }
      hide Durable, OnlyRow;
      f := file.Claim(id, expected, next);
      assert f.Done? ==> file.rows[at.value] in file.rows;
    }

    method BindRow(id: string, payload: SignedPayload, identity: string) returns (f: Fate<Row>)
      requires Inv() && Sendable(file.rows, id)
      modifies file`rows
      ensures Inv() && OnlyRow(old(file.rows), file.rows, id)
      ensures f.Done? ==> f.value in file.rows && f.value.id == id && f.value.state.Claimed? && f.value.dispatchCount == 1
      ensures f.Done? ==> f.value.payload == Some(payload)
      ensures f.Done? ==> forall row <- old(file.rows) | row.id == id ::
        SameOrder(row, f.value) && f.value.venueOrderId == row.venueOrderId
    {
      ghost var row :| row in file.rows && row.id == id && row.dispatchCount == 1;
      FindRow(file.rows, row);
      ghost var at := Find(file.rows, id).value;
      ghost var bound := row.(payload := Some(payload), payloadDigest := Some(DigestOf(payload)), settlementIdentity := identity);
      if forall r <- file.rows :: r.id != id ==> r.settlementIdentity != identity {
        RewriteKeeps(file.rows, id, bound, file.journal, io.sent);
      }
      f := file.BindSigned(id, payload, identity);
      assert file.rows[at] in file.rows;
    }

    /** Release one request; the row is durable, claimed once and, for an order, bound to this payload. */
    method Release(row: Row, payload: Option<SignedPayload>, orderId: Option<string>) returns (f: Fate<Reply>)
      requires Inv() && row in file.rows && WrittenAhead(Send(row, payload, orderId))
      requires AimedAtEntry(Send(row, payload, orderId), file.rows)
      requires forall s <- io.sent :: s.held.id != row.id
      modifies io`sent, this`writes
      ensures Inv() && writes == old(writes) + 1
      ensures io.sent == old(io.sent) || io.sent == old(io.sent) + [Send(row, payload, orderId)]
      ensures !f.Raised?
    {
      FindRow(file.rows, row);
      RecordSend(file.rows, file.journal, io.sent, Send(row, payload, orderId));
      writes := writes + 1;
      f := io.Write(file, row.id, payload, orderId);
    }

    /** After a reply that does not tell, mark the intent ambiguous and let the venue's own state decide. */
    method SettleAmbiguous(id: string, close: bool, code: string) returns (f: Fate<()>)
      requires Inv() && HasRow(file.rows, id, close)
      modifies file`rows, file`phase, io`seen, io`readings
      ensures Inv() && Grew() && OnlyRow(old(file.rows), file.rows, id) && HasRow(file.rows, id, close)
    {
      hide Durable, ShowsLast, Sendable, HasRow;
      SendableRow(file.rows, id, close);
      ghost var before := file.rows;
      var marked := Mark(id, Ambiguous, Some(if close then CloseAmbiguous else EntryAmbiguous));
      DurableRows(file.rows, file.journal, io.sent);
      HasRowKept(before, file.rows, id, close);
      var _ :- marked;
      ghost var ambiguous := file.rows;
      hide RowsOk, OnlyRow;
      var found := Reconcile(id, close);
      OnlyRowJoins(before, ambiguous, file.rows, id);
      match found
      case Done(_) => return Done(());
      case Raised(_) => return Fate.Raised(code);
      case Crashed => return Crashed;
    }

    /** Claim the intent, have it signed, and make the exact payload durable before anything is sent. */
    method ClaimAndBind(id: string, close: bool) returns (f: Fate<(Row, SignedPayload)>)
      requires Inv()
      modifies file`rows, file`phase
      ensures Inv() && (file.rows == old(file.rows) || OnlyRow(old(file.rows), file.rows, id))
      ensures f.Done? ==> f.value.0 in file.rows && f.value.0.id == id && f.value.0.state.Claimed? && f.value.0.dispatchCount == 1
      ensures f.Done? ==> f.value.0.payload == Some(f.value.1) && forall s <- io.sent :: s.held.id != id
      ensures f.Done? ==> ValidateSignedPayload(f.value.0, f.value.1, who).Ok?
    {
      hide Durable;
      ghost var before := file.rows;
      var claimed :- ClaimRow(id, if close then ClosePrepared else EntryPrepared, if close then CloseAmbiguous else EntryAmbiguous);
      ghost var taken := file.rows;
      var signed :- io.Sign();
      var _ :- Lift(ValidateSignedPayload(claimed, signed.0, who));
      hide ValidateSignedPayload, OnlyRow;
      var bound := BindRow(id, signed.0, if signed.1 != "" then signed.1 else claimed.settlementIdentity);
      OnlyRowJoins(before, taken, file.rows, id);
      var durable :- bound;
      ValidationStays(claimed, durable, signed.0, who);
      return Done((durable, signed.0));
    }

    /** Send one bound order exactly once, unless it is too late for it. */
    method SendBound(durable: Row, payload: SignedPayload, close: bool) returns (f: Fate<()>)
      requires Inv() && durable in file.rows && HasRow(file.rows, durable.id, close) && lastObservation.Some?
      requires durable.IsOrder() && WrittenAhead(Send(durable, Some(payload), None))
      requires forall s <- io.sent :: s.held.id != durable.id
      modifies file`rows, file`phase, io, this`writes
      ensures Inv() && Grew() && OnlyRow(old(file.rows), file.rows, durable.id) && writes <= old(writes) + 1
      ensures io.sent == old(io.sent) || io.sent == old(io.sent) + [Send(durable, Some(payload), None)]
      ensures f.Done? ==> HasRow(file.rows, durable.id, close)
    {
      hide Durable, HasRow, WrittenAhead;
      var now := io.Now();
      if now >= durable.expiryMs { return Fate.Raised("WRITE_INTENT_EXPIRED"); }
      var _ :- Lift(ValidateFresh(lastObservation.value, now));
      hide ValidateFresh;
      var reply :- Release(durable, Some(payload), None);
      f := SettleReply(durable, close, reply);
    }

    /** Write ahead, then send. */
    method DispatchSignedOrder(id: string, close: bool) returns (f: Fate<()>)
      requires Inv() && exists row <- file.rows :: row.id == id && row.IsOrder() && (row.role.CloseOrder? <==> close)
      modifies file`rows, file`phase, io, this`writes
      ensures Inv() && Grew() && (file.rows == old(file.rows) || OnlyRow(old(file.rows), file.rows, id))
      ensures old(io.sent) <= io.sent && |io.sent| <= |old(io.sent)| + 1 && writes <= old(writes) + 1
      ensures |io.sent| > |old(io.sent)| ==> var s := io.sent[|old(io.sent)|];
        s.held.id == id && s.payload.Some? && ValidateSignedPayload(s.held, s.payload.value, who).Ok?
      ensures f.Done? ==> HasRow(file.rows, id, close)
    {
      hide Durable, HasRow, WrittenAhead, RowsOk, OnlyRow, ValidateFresh;
      hide ValidateSignedPayload;
      ghost var before := file.rows;
      DurableRows(before, file.journal, io.sent);
      if lastObservation.None? { return Fate.Raised("SIGNING_MARKET_MISSING"); }
      var now := io.Now();
      var _ :- Lift(ValidateFresh(lastObservation.value, now));
      var bound :- ClaimAndBind(id, close);
      ghost var claimed := file.rows;
      DurableRows(claimed, file.journal, io.sent);
      SameRowRole(before, claimed, bound.0, close);
      BoundPayload(claimed, bound.0, bound.1, who);
      f := SendBound(bound.0, bound.1, close);
      OnlyRowJoins(before, claimed, file.rows, id);
    }

    method SettleReply(durable: Row, close: bool, reply: Reply) returns (f: Fate<()>)
      requires Inv() && durable in file.rows && HasRow(file.rows, durable.id, close)
      modifies file`rows, file`phase, io`seen, io`readings
      ensures Inv() && Grew() && OnlyRow(old(file.rows), file.rows, durable.id) && HasRow(file.rows, durable.id, close)
    {
      var id := durable.id;
      match reply
      case AmbiguousReply(code) => f := SettleAmbiguous(id, close, code);
      case FailedReply(code) => f := SettleAmbiguous(id, close, code);
      case UnexpectedReply(code) => f := Fate.Raised(code);
      case RejectedReply(_) =>
        var marked := Mark(id, RejectedByVenue, Some(if close then CloseAmbiguous else EntryAmbiguous));
        HasRowKept(old(file.rows), file.rows, id, close);
        var _ :- marked;
        f := Done(());
      case Receipt(accepted, orderId, externalId) =>
        if !accepted || orderId.None? || externalId != Some(durable.externalId) {
          var marked := Mark(id, Ambiguous, Some(if close then CloseAmbiguous else EntryAmbiguous));
          HasRowKept(old(file.rows), file.rows, id, close);
          var _ :- marked;
          return Fate.Raised("WRITE_RESPONSE_IDENTITY_MISMATCH");
        }
        var marked := MarkAccepted(id, orderId.value, externalId.value);
        HasRowKept(old(file.rows), file.rows, id, close);
        var _ :- marked;
        f := Done(());
    }

    // ----- Preparing intents -----

    /** Insert one draft; its random identity must still be unused. */
    method PrepareRow(draft: Row, expected: Phase, next: Phase) returns (f: Fate<Row>)
      requires Inv() && RolesOk(file.rows + [draft])
      requires draft.state.Prepared? && draft.dispatchCount == 0 && draft.payload.None?
      modifies file`rows, file`phase
      ensures Inv() && (file.rows == old(file.rows) || file.rows == old(file.rows) + [draft])
      ensures f.Done? ==> f.value == draft && file.rows == old(file.rows) + [draft]
    {
      if IdentityFree(file.rows, draft) {
        AppendKeeps(file.rows, draft, file.journal, io.sent);
      }
      f := file.Prepare(draft, expected, next);
    }

    /** A nonce not yet used and a random external id. */
    method NewIdentity() returns (f: Fate<(string, int, string)>)
    {
      var id: string, nonce: int, external: string := *, *, *;
      if !(1 <= nonce <= 0x7FFF_FFFF) || exists row <- file.rows :: row.nonce == nonce { return Fate.Raised("NONCE_GENERATION_EXHAUSTED"); }
      if exists row <- file.rows :: row.externalId == external { return Fate.Raised("EXTERNAL_ID_GENERATION_COLLISION"); }
      return Done((id, nonce, external));
    }

    /** The smallest order the market takes, at the best ask, affordable in and out, on a fresh observation. */
    method PrepareEntry(obs: Observation) returns (f: Fate<Row>)
      requires Inv() && file.rows == []
      modifies file`rows, file`phase, io`readings
      ensures Inv() && Grew()
      ensures f.Done? ==> file.rows == [f.value] && f.value.role.EntryOrder?
      ensures f.Done? ==> EntryTerms(f.value, obs) && FreshAt(f.value, obs, io.readings)
    {
      hide ValidateFresh, ValidateLimitPrice, Durable;
      var now := io.Now();
      var _ :- Lift(ValidateFresh(obs, now));
      var qty := obs.market.minOrderSize;
      if |obs.fees| != 1 { return Fate.Raised("TAKER_FEE_UNIQUE"); }
      var fee := obs.fees[0];
      var bid :- Lift(TopLevel(obs.bids));
      var ask :- Lift(TopLevel(obs.asks));
      if bid.price <= 0.0 || ask.price <= bid.price { return Fate.Raised("BOOK_CROSSED"); }
      if ask.qty < qty || bid.qty < qty { return Fate.Raised("TOP_LEVEL_DEPTH_INSUFFICIENT"); }
      var _ :- Lift(ValidateLimitPrice(obs.market, Buy, ask.price));
      if qty * ask.price > MAX_NOTIONAL_USD { return Fate.Raised("NOTIONAL_CAP"); }
      if obs.collateralName != obs.market.collateral { return Fate.Raised("COLLATERAL_MISMATCH"); }
      if obs.availableForTrade < qty * ask.price * (1.0 + fee) + qty * bid.price * (1.0 + fee) {
        return Fate.Raised("BALANCE_INSUFFICIENT");
      }
      if |obs.leverage| != 1 || obs.leverage[0] <= 0.0 { return Fate.Raised("LEVERAGE_INVALID"); }
      var identity :- NewIdentity();
      ghost var checked := io.readings[|io.readings| - 1];
      now := io.Now();
      assert checked in io.readings && Reading(now, |io.seen|) in io.readings;
      var draft := Row(identity.0, EntryOrder, Prepared, identity.1, identity.2, identity.2, now + SHORT_EXPIRY_MS,
        Some(Buy), qty, ask.price, fee, false, None, None, None, None, 0);
      f := PrepareRow(draft, Flat, EntryPrepared);
    }

    method PrepareCancel(entry: Row) returns (f: Fate<Row>)
      requires Inv() && file.rows == [entry]
      modifies file`rows, file`phase, io`readings
      ensures Inv() && Grew() && |file.rows| > 0 && file.rows[0] == entry
      ensures f.Done? ==> file.rows == [entry, f.value] && f.value.role.CancelRequest?
    {
      if entry.venueOrderId.None? { return Fate.Raised("CANCEL_ORDER_ID_REQUIRED"); }
      var identity :- NewIdentity();
      var now := io.Now();
      var external := "cancel-" + identity.2;
      var draft := Row(identity.0, CancelRequest, Prepared, identity.1, external, external, now + SHORT_EXPIRY_MS,
        None, 0.0, 0.0, 0.0, false, Some(entry.id), None, None, None, 0);
      f := PrepareRow(draft, EntryAmbiguous, CancelPrepared);
    }

    /** The close trades the whole observed position, on the other side, at the best bid. */
    method PrepareClose(entry: Row, obs: Observation) returns (f: Fate<Row>)
      requires Inv() && file.rows == [entry]
      modifies file`rows, file`phase, io`readings
      ensures Inv() && Grew() && |file.rows| > 0 && file.rows[0] == entry
      ensures f.Done? ==> file.rows == [entry, f.value] && f.value.role.CloseOrder?
      ensures f.Done? ==> CloseTerms(f.value, entry, obs, who) && FreshAt(f.value, obs, io.readings)
    {
      assert entry.role.EntryOrder? && entry.side == Some(Buy) by { assert file.rows[0] == entry; }
      hide ValidateFresh, Durable, OfferOk;
      if !entry.state.EntryReconciled? { return Fate.Raised("ENTRY_NOT_RECONCILED"); }
      var now := io.Now();
      var _ :- Lift(ValidateFresh(obs, now));
      var offer :- CloseOffer(entry, obs);
      var identity :- NewIdentity();
      ghost var checked := io.readings[|io.readings| - 1];
      now := io.Now();
      var draft := Row(identity.0, CloseOrder, Prepared, identity.1, identity.2, identity.2, now + SHORT_EXPIRY_MS,
        Some(offer.side), offer.qty, offer.price, offer.fee, true, Some(entry.id), None, None, None, 0);
      assert checked in io.readings && Reading(now, |io.seen|) in io.readings;
      IsFresh(draft, obs, checked, Reading(now, |io.seen|), io.readings);
      hide FreshAt;
      f := PrepareRow(draft, Exposed, ClosePrepared);
    }

    /** Checks everything a close needs of the observation, and prices it. */
    method CloseOffer(entry: Row, obs: Observation) returns (f: Fate<Offer>)
      ensures f.Done? && entry.side == Some(Buy) ==> OfferOk(f.value, entry.qty, obs, who)
      ensures f.Done? && entry.side == Some(Buy) ==> f.value.side.Sell? && f.value.qty == entry.qty
    {
      hide ValidateLimitPrice;
      if obs.openOrders != [] { return Fate.Raised("OPEN_ORDER_PRESENT"); }
      if !HoldsPosition(obs.positions, who, if entry.side == Some(Buy) then Long else Short, entry.qty) {
        return Fate.Raised("POSITION_BINDING_MISMATCH");
      }
      var size, long := obs.positions[0].size, obs.positions[0].side == Some(Long);
      var bid :- Lift(TopLevel(obs.bids));
      var ask :- Lift(TopLevel(obs.asks));
      if bid.price <= 0.0 || ask.price <= bid.price { return Fate.Raised("BOOK_CROSSED"); }
      var touch := if long then bid else ask;
      if touch.qty < size { return Fate.Raised("TOP_LEVEL_DEPTH_INSUFFICIENT"); }
      var side := if long then Sell else Buy;
      var _ :- Lift(ValidateLimitPrice(obs.market, side, touch.price));
      if size * touch.price > MAX_NOTIONAL_USD { return Fate.Raised("NOTIONAL_CAP"); }
      if |obs.fees| != 1 { return Fate.Raised("TAKER_FEE_UNIQUE"); }
      return Done(Offer(side, size, touch.price, obs.fees[0]));
    }

    // ----- Cancelling -----

    /** An ambiguous cancellation stands only when the entry is proven unfilled. */
    method SettleCancel(cancelId: string, entryId: string, code: string) returns (f: Fate<()>)
      requires Inv() && Sendable(file.rows, cancelId) && HasRow(file.rows, entryId, false) && cancelId != entryId
      modifies file`rows, file`phase, io`seen, io`readings
      ensures Inv() && Grew() && SameOrders(old(file.rows), file.rows)
      ensures f.Done? ==> Sendable(file.rows, cancelId)
    {
      hide Durable, ShowsLast, HasRow, Sendable, OnlyRow, SameOrders;
      ghost var before := file.rows;
      var marked := Mark(cancelId, Ambiguous, Some(CancelAmbiguous));
      SameOrdersJoin(before, before, file.rows, cancelId);
      var _ :- marked;
      HasRowUntouched(before, file.rows, cancelId, entryId);
      ghost var ambiguous := file.rows;
      var found := Reconcile(entryId, false);
      SameOrdersJoin(before, ambiguous, file.rows, entryId);
      SendableUntouched(ambiguous, file.rows, entryId, cancelId);
      ghost var settled := file.rows;
      match found
      case Crashed => return Crashed;
      case Raised(_) => return Fate.Raised(code);
      case Done(outcome) =>
        if !outcome.0.NoFill? { return Fate.Raised(code); }
        f := MarkCancelled(cancelId);
        SameOrdersJoin(before, settled, file.rows, cancelId);
    }

    method MarkCancelled(cancelId: string) returns (f: Fate<()>)
      requires Inv() && Sendable(file.rows, cancelId)
      modifies file`rows, file`phase
      ensures Inv() && OnlyRow(old(file.rows), file.rows, cancelId) && Sendable(file.rows, cancelId)
    {
      hide Durable, Sendable, OnlyRow;
      var _ :- Mark(cancelId, Reconciled, Some(FlatPendingExpiry));
      return Done(());
    }

    method DispatchCancel(cancel: Row, entry: Row) returns (f: Fate<()>)
      requires Inv() && file.rows == [entry, cancel] && cancel.role.CancelRequest? && entry.dispatchCount == 1
      modifies file`rows, file`phase, io, this`writes
      ensures Inv() && Grew() && SameOrders(old(file.rows), file.rows) && writes <= old(writes) + 1
      ensures io.sent == old(io.sent) || (entry.venueOrderId.Some?
        && io.sent == old(io.sent) + [Send(cancel.(state := Claimed, dispatchCount := 1), None, entry.venueOrderId)])
      ensures f.Done? ==> Sendable(file.rows, cancel.id)
    {
      ghost var before := file.rows;
      assert before[0] == entry && before[1] == cancel;
      CancelOf(before, file.journal, io.sent);
      hide Durable, RolesOk, SentOk;
      var claimed :- ClaimRow(cancel.id, CancelPrepared, CancelAmbiguous);
      DurableRows(before, file.journal, io.sent);
      DurableRows(file.rows, file.journal, io.sent);
      ClaimedSecond(before, file.rows, claimed);
      FindRow(before, cancel);
      f := SendCancel(claimed, entry);
    }

    /** Send one claimed cancellation exactly once, naming the entry's venue id, unless it is too late. */
    method SendCancel(claimed: Row, entry: Row) returns (f: Fate<()>)
      requires Inv() && file.rows == [entry, claimed] && claimed.id != entry.id
      requires entry.role.EntryOrder? && claimed.role.CancelRequest? && claimed.targetId == Some(entry.id)
      requires claimed.state.Claimed? && claimed.dispatchCount == 1 && entry.dispatchCount == 1
      requires forall s <- io.sent :: s.held.id != claimed.id
      modifies file`rows, file`phase, io, this`writes
      ensures Inv() && Grew() && SameOrders(old(file.rows), file.rows) && writes <= old(writes) + 1
      ensures io.sent == old(io.sent)
        || (entry.venueOrderId.Some? && io.sent == old(io.sent) + [Send(claimed, None, entry.venueOrderId)])
      ensures f.Done? ==> Sendable(file.rows, claimed.id)
    {
      hide Durable, HasRow, Sendable;
      if entry.venueOrderId.None? { return Fate.Raised("CANCEL_ORDER_ID_REQUIRED"); }
      var now := io.Now();
      if now >= claimed.expiryMs { return Fate.Raised("CANCEL_INTENT_EXPIRED"); }
      assert file.rows[0] in file.rows && file.rows[1] in file.rows;
      var reply :- Release(claimed, None, entry.venueOrderId);
      f := SettleCancelReply(claimed, entry, reply);
    }

    method SettleCancelReply(claimed: Row, entry: Row, reply: Reply) returns (f: Fate<()>)
      requires Inv() && file.rows == [entry, claimed] && claimed.id != entry.id
      requires entry.dispatchCount == 1 && claimed.dispatchCount == 1 && entry.role.EntryOrder?
      modifies file`rows, file`phase, io`seen, io`readings
      ensures Inv() && Grew() && SameOrders(old(file.rows), file.rows)
      ensures f.Done? ==> Sendable(file.rows, claimed.id)
    {
      assert entry in file.rows && claimed in file.rows;
      assert HasRow(file.rows, entry.id, false) && Sendable(file.rows, claimed.id);
      hide Durable, HasRow, Sendable;
      match reply
      case AmbiguousReply(code) => f := SettleCancel(claimed.id, entry.id, code);
      case FailedReply(code) => f := SettleCancel(claimed.id, entry.id, code);
      case UnexpectedReply(code) => f := Fate.Raised(code);
      case RejectedReply(code) =>
        var _ :- Mark(claimed.id, RejectedByVenue, Some(CancelAmbiguous));
        f := Fate.Raised(code);
      case Receipt(accepted, orderId, externalId) =>
        if !accepted || (orderId.Some? && orderId != entry.venueOrderId)
          || (externalId.Some? && externalId != Some(entry.externalId))
        {
          var _ :- Mark(claimed.id, Ambiguous, Some(CancelAmbiguous));
          return Fate.Raised("CANCEL_RECEIPT_INVALID");
        }
        var _ :- Mark(claimed.id, Accepted, Some(CancelAmbiguous));
        f := Done(());
    }

    // ----- Final barrier and the whole run -----

    /** One final round, order by order, gathering the trade ids that may exist. */
    method CheckRound(obs: Observation) returns (r: Result<set<int>, string>)
      ensures r == FinalRound(file.rows, obs, who)
    {
      hide HistoryUnique, HistoryAgrees, MatchingVenueOrder, MatchingTrades;
      if obs.openOrders != [] || obs.positions != [] { return Err("FINAL_ZERO_FLATNESS_FAILED"); }
      if !HistoryUnique(obs.orderHistory) { return Err("FINAL_HISTORY_DUPLICATE"); }
      var rows := file.rows;
      var ids: set<int> := {};
      for k := 0 to |rows|
        invariant var all, rest := ExpectedTradeIds(rows, obs, who), ExpectedTradeIds(rows[k..], obs, who);
          if rest.Err? then all == rest else all.Ok? && all.value == ids + rest.value
      {
        assert rows[k..][1..] == rows[k + 1..];
        if rows[k].IsOrder() {
          var past := HistoryOf(obs.orderHistory, rows[k].externalId);
          if past.None? { return Err("FINAL_HISTORY_MISSING"); }
          if !HistoryAgrees(rows[k], past.value) { return Err("FINAL_HISTORY_MISMATCH"); }
          var order :- MatchingVenueOrder(rows[k], obs, who);
          if order.None? { return Err("FINAL_EXACT_ORDER_MISSING"); }
          var trades :- CollectTrades(rows[k], obs, who);
          ids := ids + TradeIds(trades);
        }
      }
      if TradeIds(obs.trades) != ids { return Err("FINAL_TRADE_IDENTITY_MISMATCH"); }
      return Ok(ids);
    }

    /** Wait, at most 256 readings, for the clock to pass the last expiry. */
    method WaitForExpiry(latest: int) returns (f: Fate<()>)
      modifies io`readings
      ensures old(io.readings) <= io.readings
      ensures f.Done? ==> exists r <- io.readings :: r.seenBefore == |io.seen| && r.timeMs > latest
    {
      for attempt := 0 to 256
        invariant old(io.readings) <= io.readings
      {
        var now := io.Now();
        if now > latest {
          assert io.readings[|io.readings| - 1].timeMs == now;
          return Done(());
        }
      }
      return Fate.Raised("FINAL_EXPIRY_WAIT_UNBOUNDED");
    }

    method FinalBarrier() returns (f: Fate<()>)
      requires Inv()
      modifies file`phase, io`seen, io`readings
      ensures Inv() && Grew()
      ensures f.Done? ==> Barrier(file.rows, io.seen, io.readings, who) && |io.seen| >= |old(io.seen)| + 2
      ensures f.Done? ==> file.phase == Complete
    {
      hide NoUnrelated, ValidateFresh, ExternalIds, Durable, FinalRound;
      var orders := set row <- file.rows | row.IsOrder() :: row.expiryMs;
      if orders == {} { return Fate.Raised("FINAL_INTENTS_MISSING"); }
      var latest := LastExpiry(file.rows);
      LastExpiryBounds(file.rows);
      var _ :- WaitForExpiry(latest);
      ghost var reading :| reading in io.readings && reading.seenBefore == |io.seen| && reading.timeMs > latest;
      var first :- Observe();
      var second :- Observe();
      if second.observedAtMs <= first.observedAtMs { return Fate.Raised("FINAL_ROUNDS_NOT_ORDERED"); }
      if first.fingerprint != second.fingerprint { return Fate.Raised("FINAL_ROUNDS_DISAGREE"); }
      if exists row <- file.rows :: row.state.Prepared? || row.state.Claimed? || row.state.Ambiguous? {
        return Fate.Raised("FINAL_OUTSTANDING_INTENT");
      }
      var firstIds := CheckRound(first);
      var _ :- Lift(firstIds);
      var secondIds := CheckRound(second);
      var _ :- Lift(secondIds);
      if firstIds != secondIds { return Fate.Raised("FINAL_TRADE_ROUNDS_DISAGREE"); }
      var _ :- file.SetPhase(Complete);
      assert reading in io.readings;
      return Done(());
    }

    /** From an empty table to a reconciled entry. */
    method Open() returns (f: Fate<(Row, Verdict, Observation)>)
      requires Inv() && file.rows == [] && io.sent == [] && writes == 0
      modifies file`rows, file`phase, io, this`writes, this`lastObservation
      ensures Inv() && Grew() && writes <= 1
      ensures f.Done? ==> file.rows == [f.value.0] && f.value.0.dispatchCount == 1 && f.value.0.role.EntryOrder?
      ensures f.Done? ==> io.seen != [] && Shows(f.value.1, f.value.0, io.seen[|io.seen| - 1], who)
      ensures f.Done? ==> !f.value.1.Unseen? && (f.value.1.StillOpen? || IsLast(io.seen, f.value.2))
    {
      hide NoUnrelated, ValidateFresh, ExternalIds, EntryTerms, FreshAt, Shows, Durable, HasRow, ValidateSignedPayload;
      if file.phase != Flat || file.rows != [] { return Fate.Raised("EXISTING_LIFECYCLE_REQUIRES_RECOVERY"); }
      var initial :- Observe();
      lastObservation := Some(initial);
      var entry :- PrepareEntry(initial);
      assert file.rows[0].IsOrder();
      ghost var before := file.rows;
      var _ :- DispatchSignedOrder(entry.id, false);
      assert file.rows[0].id == entry.id && SameOrder(before[0], file.rows[0]);
      ghost var sentOnce := file.rows;
      var found :- Reconcile(entry.id, false);
      OnlyEntry(sentOnce, file.rows, entry.id);
      return Done((file.rows[0], found.0, found.1));
    }

    /** At most five more observations until the cancelled entry is proven unfilled. */
    method AwaitNoFill(entryId: string, cancelId: string) returns (f: Fate<()>)
      requires Inv() && HasRow(file.rows, entryId, false) && Sendable(file.rows, cancelId) && entryId != cancelId
      modifies file`rows, file`phase, io`seen, io`readings
      ensures Inv() && Grew() && SameOrders(old(file.rows), file.rows)
      ensures f.Done? ==> Sendable(file.rows, cancelId)
      ensures f.Done? ==> ShowsLast(NoFill, file.rows, entryId, io.seen, who)
    {
      hide Durable, HasRow, Sendable, ShowsLast;
      for attempt := 0 to MAX_RECONCILE_READS
        invariant Inv() && Grew() && SameOrders(old(file.rows), file.rows)
        invariant HasRow(file.rows, entryId, false) && Sendable(file.rows, cancelId)
      {
        ghost var before := file.rows;
        var found :- ReconcileOnce(entryId, false);
        SendableUntouched(before, file.rows, entryId, cancelId);
        if found.1.NoFill? { return Done(()); }
      }
      return Fate.Raised("CANCEL_OUTCOME_UNRESOLVED");
    }

    /** Cancel an entry that stays open, then wait until it is proven unfilled. */
    method CancelLeg(entry: Row) returns (f: Fate<()>)
      requires Inv() && file.rows == [entry] && entry.dispatchCount == 1 && writes <= 1
      modifies file`rows, file`phase, io, this`writes
      ensures Inv() && Grew() && writes <= 2
      ensures f.Done? ==> |file.rows| == 2 && file.rows[1].role.CancelRequest?
      ensures f.Done? ==> io.seen != [] && UnfilledBy(file.rows[0], io.seen[|io.seen| - 1], who)
    {
      hide Durable, HasRow, Sendable, UnfilledBy, ShowsLast, SameOrders, OnlyRow;
      var cancel :- PrepareCancel(entry);
      TwoRows(file.rows, file.journal, io.sent);
      ghost var before := file.rows;
      assert before[0] == entry && before[1] == cancel;
      var _ :- DispatchCancel(cancel, entry);
      EntryStaysDispatched(before, file.rows, file.journal, io.sent);
      ghost var placed := file.rows;
      var _ :- AwaitNoFill(entry.id, cancel.id);
      ghost var proven := file.rows;
      ProvenEntry(before, placed, proven, io.seen, who);
      var _ :- MarkCancelled(cancel.id);
      SecondMarked(proven, file.rows);
      return Done(());
    }

    /** Close what the entry opened; on success both legs are proven filled, in this order. */
    method CloseLeg(entry: Row, obs: Observation) returns (f: Fate<()>)
      requires Inv() && file.rows == [entry] && entry.dispatchCount == 1 && writes <= 1
      requires io.seen != [] && io.seen[|io.seen| - 1] == obs && FilledBy(entry, obs, who)
      modifies file`rows, file`phase, io, this`writes, this`lastObservation
      ensures Inv() && Grew() && writes <= 2
      ensures f.Done? ==> |file.rows| == 2 && file.rows[0] == entry && file.rows[1].role.CloseOrder?
      ensures f.Done? ==> |io.seen| > |old(io.seen)| && FilledBy(file.rows[1], io.seen[|io.seen| - 1], who)
    {
      hide FilledBy, HasRow, CloseTerms, FreshAt, ValidateSignedPayload, Durable, OnlyRow, ShowsLast, IsLast;
      lastObservation := Some(obs);
      var close :- PrepareClose(entry, obs);
      TwoRows(file.rows, file.journal, io.sent);
      ghost var before := file.rows;
      assert before[0] == entry && before[1] == close;
      var _ :- DispatchSignedOrder(close.id, true);
      if file.rows != before { SecondMarked(before, file.rows); }
      ghost var sentOnce := file.rows;
      var found :- Reconcile(close.id, true);
      SecondMarked(sentOnce, file.rows);
      if !found.0.WasFilled? { return Fate.Raised("CLOSE_OUTCOME_UNRESOLVED"); }
      ProvenClose(file.rows, io.seen, who);
      if found.1.positions != [] { return Fate.Raised("CLOSE_POSITION_NOT_FLAT"); }
      return Done(());
    }

    /**
     The whole lifecycle. Dead, failed or finished, it has released at most two requests, each written
     ahead; a success report rests on SuccessProof.
     */
    method Run() returns (f: Fate<Report>)
      requires Inv() && file.rows == [] && io.sent == [] && writes == 0
      modifies file, io, this`writes, this`lastObservation
      ensures Durable(file.rows, file.journal, io.sent) && file.journal.Some? && file.journal.value.runId == runId
      ensures |io.sent| <= writes <= 2
      ensures f.Done? ==> f.value.writes == writes && f.value.runId == runId
      ensures f.Done? ==> file.journal == Some(Journal(runId, Completed)) && file.phase == Complete
      ensures f.Done? ==> Barrier(file.rows, io.seen, io.readings, who)
      ensures f.Done? && f.value.status.SuccessClosedFlat? ==> SuccessProof(file.rows, io.seen, io.readings, who)
      ensures f.Done? && f.value.status.CompletedNoFillFlat? ==> NoFillProof(file.rows, io.seen, io.readings, who)
      ensures !f.Done? && !f.Crashed? ==> file.journal == Some(Journal(runId, Started))
    {
      hide Durable, FilledBy, UnfilledBy, OpenBy, Barrier;
      var leg :- Open();
      var (entry, verdict, obs) := leg;
      ghost var seen := io.seen;
      if verdict.StillOpen? {
        var _ :- CancelLeg(entry);
      } else if verdict.WasFilled? {
        var _ :- CloseLeg(entry, obs);
      }
      ghost var closed := io.seen;
      var _ :- FinalBarrier();
      var status := if verdict.WasFilled? then SuccessClosedFlat else CompletedNoFillFlat;
      if !verdict.WasFilled? {
        assert UnfilledBy(file.rows[0], io.seen[|closed| - 1], who);
      }
      if verdict.WasFilled? {
        assert io.seen[|seen| - 1] == obs && io.seen[|closed| - 1] == closed[|closed| - 1];
        assert FilledBy(file.rows[0], io.seen[|seen| - 1], who) && FilledBy(file.rows[1], io.seen[|closed| - 1], who);
      }
      var closeId := if |file.rows| == 2 && file.rows[1].role.CloseOrder? then file.rows[1].venueOrderId else None;
      var report := Report(status, runId, writes, entry.venueOrderId, closeId);
      JournalKeeps(file.rows, file.journal, io.sent);
      var _ :- file.Terminalize(runId, Completed);
      return Done(report);
    }
  }

  lemma JournalKeeps(rows: seq<Row>, journal: Option<Journal>, sent: seq<Send>)
    requires Durable(rows, journal, sent)
    ensures forall other: Option<Journal> | other.Some? :: Durable(rows, other, sent)
  {
  }

  // ----- Process starts -----

  /** One process: it may begin the single run of this file, and records a failure it survives. */
  method FixtureRun(file: StoreFile, io: VenueIO, who: Identity) returns (f: Fate<Report>)
    requires Durable(file.rows, file.journal, io.sent)
    modifies file, io
    ensures Durable(file.rows, file.journal, io.sent)
    ensures old(file.journal).Some? ==> file.rows == old(file.rows) && io.sent == old(io.sent) && file.journal == old(file.journal)
    ensures old(file.journal).Some? ==> !f.Done?
    ensures f.Done? && f.value.status.SuccessClosedFlat? ==> SuccessProof(file.rows, io.seen, io.readings, who)
    ensures f.Done? && f.value.status.CompletedNoFillFlat? ==> NoFillProof(file.rows, io.seen, io.readings, who)
    ensures f.Done? ==> |io.sent| <= f.value.writes <= 2 && Barrier(file.rows, io.seen, io.readings, who)
    ensures f.Done? ==> file.phase == Complete && file.journal == Some(Journal(f.value.runId, Completed))
    ensures f.Raised? && old(file.journal).None? ==>
      file.phase == Halted(f.code) && file.journal.Some? && file.journal.value.state.Blocked?
  {
    var runId: string := *;
    SendsAreBounded(file.rows, file.journal, io.sent);
    JournalKeeps(file.rows, file.journal, io.sent);
    var begun := file.Begin(runId);
    if !begun.Done? {
      return begun.PropagateFailure();
    }
    var runner := new SealedLifecycleRunner(file, io, who, runId);
    f := runner.Run();
    if f.Raised? {
      JournalKeeps(file.rows, file.journal, io.sent);
      var halted := file.SetPhase(Halted(f.code));
      if halted.Crashed? { return Crashed; }
      var recorded := file.Terminalize(runId, Blocked);
      if recorded.Crashed? { return Crashed; }
    }
  }

  /** Any number of process starts on one file, each dying wherever it dies. */
  method ProcessStarts(starts: nat, file: StoreFile, io: VenueIO, who: Identity)
    requires file.rows == [] && file.journal == None && io.sent == []
    modifies file, io
    ensures |io.sent| <= 2 && forall s <- io.sent :: WrittenAhead(s) && AimedAtEntry(s, file.rows)
    ensures forall i, j | 0 <= i < j < |io.sent| :: io.sent[i].held.id != io.sent[j].held.id
    ensures !((exists s <- io.sent :: s.held.role.CancelRequest?) && (exists s <- io.sent :: s.held.role.CloseOrder?))
  {
    for start := 0 to starts
      invariant Durable(file.rows, file.journal, io.sent)
    {
      var _ := FixtureRun(file, io, who);
    }
    SendsAreBounded(file.rows, file.journal, io.sent);
  }
}

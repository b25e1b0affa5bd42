/**
 The paper position lifecycle as functions on values: the exit order and its versions, the
 gap and event log, funding rows, and every operation of the engine.
 */
module PaperEngine {
  import opened Wrappers
  import opened Funding
  import opened PaperMarket
  import VenueEvidence

  // ----- The exit order -----

  datatype VersionStatus = Open | Replaced | Cancelled | Filled
  datatype VersionReason = PriceChanged | AggressiveTransition | UnwindUnavailable | DataGap | ProcessRestart | HardBasis

  /** One priced version of the exit order; its number identifies it. */
  datatype Version = Version(number: nat, mode: Phase, limit: Positive, createdAt: int, checkedAt: int, cumulative: real,
                             status: VersionStatus, closedAt: Option<int>, reason: Option<VersionReason>)

  datatype ExitOrder = ExitOrder(venue: Venue, market: nat, side: Side, quantity: Positive, versions: seq<Version>)

  /** The exit order and, per version, the trades counted towards filling it. */
  datatype Desk = Desk(order: Option<ExitOrder>, qualifying: map<nat, seq<Trade>>) {
    function Last(): Option<Version> {
      if order.None? || order.value.versions == [] then None else Some(order.value.versions[|order.value.versions| - 1])
    }

    function Active(): Option<Version> {
      if Last().Some? && Last().value.status.Open? then Last() else None
    }

    function WithLast(version: Version): Desk
      requires Last().Some?
    {
      var versions := order.value.versions;
      this.(order := Some(order.value.(versions := versions[..|versions| - 1] + [version])))
    }

    function Counted(number: nat): seq<Trade> {
      if number in qualifying then qualifying[number] else []
    }
  }

  function Latest(a: int, b: int, c: int): int {
    var m := if a < b then b else a;
    if m < c then c else m
  }

  function CancelVersion(desk: Desk, reason: VersionReason, at: int): Desk {
    var active := desk.Active();
    if active.None? then desk
    else
      var v := active.value;
      desk.WithLast(v.(status := Cancelled, closedAt := Some(Latest(at, v.createdAt, v.checkedAt)), reason := Some(reason)))
          .(qualifying := desk.qualifying - {v.number})
  }

  function ReplaceVersion(desk: Desk, reason: VersionReason, at: int): Desk
    requires desk.Active().Some?
  {
    var v := desk.Active().value;
    desk.WithLast(v.(status := Replaced, closedAt := Some(at), reason := Some(reason)))
        .(qualifying := desk.qualifying - {v.number})
  }

  function NewVersion(desk: Desk, p: Position, price: Positive, mode: Phase, at: int): Desk {
    var order := if desk.order.Some? then desk.order.value
                 else ExitOrder(p.MakerVenue(), p.makerMarket, p.MakerExitSide(), p.quantity, []);
    var number := if order.versions == [] then 1 else order.versions[|order.versions| - 1].number + 1;
    var version := Version(number, mode, price, at, at, 0.0, Open, None, None);
    desk.(order := Some(order.(versions := order.versions + [version])))
  }

  /** Keep one open version at the wanted price; a price change waits for the reprice interval. */
  function EnsureVersion(desk: Desk, p: Position, price: Option<Positive>, mode: Phase, at: int, transition: bool): Desk {
    var active := desk.Active();
    if price.None? then desk
    else if active.None? then NewVersion(desk, p, price.value, mode, at)
    else if transition then NewVersion(ReplaceVersion(desk, AggressiveTransition, at), p, price.value, mode, at)
    else if at - active.value.checkedAt < REPRICE then desk
    else if active.value.limit == price.value then desk.WithLast(active.value.(checkedAt := at))
    else NewVersion(ReplaceVersion(desk, PriceChanged, at), p, price.value, mode, at)
  }

  predicate Eligible(order: ExitOrder, limit: real, tick: Positive, trade: Trade) {
    && trade.venue == order.venue && trade.market == order.market
    && trade.matched == Some(true) && trade.exchangeAt.Some?
    && trade.quantity > 0.0 && TickAligned(trade.price, tick)
    && Through(order.side, limit, tick, trade)
  }

  // ----- Gaps and events -----

  datatype CloseReason = NormalMaker | AggressiveMaker | HardBasisClose
  datatype EventKind = GapStarted | GapEnded | UnwindUnavailableSeen | NormalExitStarted | AggressiveExitStarted | PositionClosed
  datatype Event = Event(kind: EventKind, at: int, detail: Option<CloseReason>)
  datatype Gap = Gap(start: int, end: Option<int>, overlappedFunding: bool, overlappedExit: bool)

  datatype Log = Log(gaps: seq<Gap>, events: seq<Event>, degraded: bool, unavailable: bool) {
    predicate GapOpen() {
      gaps != [] && gaps[|gaps| - 1].end.None?
    }

    /** No event so far is later; an earlier instant makes the source raise. */
    predicate Timely(at: int) {
      events == [] || events[|events| - 1].at <= at
    }

    function Append(kind: EventKind, at: int, detail: Option<CloseReason>): Log {
      this.(events := events + [Event(kind, at, detail)])
    }
  }

  function RecordUnavailable(log: Log, at: int): Log {
    (if log.unavailable then log else log.Append(UnwindUnavailableSeen, at, None)).(degraded := true, unavailable := true)
  }

  function OpenGap(log: Log, at: int, exiting: bool): Log {
    log.(degraded := true, gaps := log.gaps + [Gap(at, None, false, exiting)]).Append(GapStarted, at, None)
  }

  function CloseGap(log: Log, at: int, rows: seq<Settlement>): Log
    requires log.GapOpen()
  {
    var n := |log.gaps| - 1;
    var funded := exists row <- rows :: log.gaps[n].start <= row.key.at <= at;
    log.(gaps := log.gaps[..n] + [log.gaps[n].(end := Some(at), overlappedFunding := funded)]).Append(GapEnded, at, None)
  }

  // ----- Funding cycles -----

  datatype CycleEvent = CycleEvent(key: Key, expected: Option<real>, known: bool)
  datatype Cycle = Cycle(id: string, end: int, risex: CycleEvent, hedge: CycleEvent)

  function RowFor(event: CycleEvent, openedAt: int): Settlement {
    Settlement(event.key, if event.key.at <= openedAt then SkippedNotOpen else Pending, None)
  }

  predicate Conflicts(rows: seq<Settlement>, row: Settlement) {
    RowAt(rows, row.key).Some? && rows[RowAt(rows, row.key).value] != row
  }

  function AddRow(rows: seq<Settlement>, row: Settlement): seq<Settlement> {
    if RowAt(rows, row.key).Some? then rows else Upsert(rows, row)
  }

  /** Register both rows of a cycle; a different row already there is a conflict. */
  function Register(rows: seq<Settlement>, cycle: Cycle, openedAt: int): Result<seq<Settlement>, string> {
    var first, second := RowFor(cycle.risex, openedAt), RowFor(cycle.hedge, openedAt);
    var _ :- Need(!Conflicts(rows, first), "FUNDING_EVENT_CONFLICT");
    var one := AddRow(rows, first);
    var _ :- Need(!Conflicts(one, second), "FUNDING_EVENT_CONFLICT");
    Ok(AddRow(one, second))
  }

  predicate EventResolved(rows: seq<Settlement>, event: CycleEvent, at: int)
    requires RowAt(rows, event.key).Some?
  {
    var row := rows[RowAt(rows, event.key).value];
    row.key.at <= at && !row.status.Pending? && !row.status.Unresolved? && AuthoritativeCash(row).Some?
  }

  /** The rows of the cycle are in the table. */
  predicate Registered(rows: seq<Settlement>, cycle: Cycle) {
    RowAt(rows, cycle.risex.key).Some? && RowAt(rows, cycle.hedge.key).Some?
  }

  predicate CycleResolved(rows: seq<Settlement>, cycle: Cycle, at: int) {
    Registered(rows, cycle) && EventResolved(rows, cycle.risex, at) && EventResolved(rows, cycle.hedge, at)
  }

  function Expected(event: CycleEvent, at: int): Option<real> {
    if event.key.at <= at then Some(0.0)
    else if !event.known then None
    else event.expected
  }

  function RemainingFunding(cycle: Option<Cycle>, at: int): Option<real> {
    if cycle.None? then None
    else
      var r, h := Expected(cycle.value.risex, at), Expected(cycle.value.hedge, at);
      if r.None? || h.None? then None else Some(r.value + h.value)
  }

  /** Rows whose settlement instant is in the window. */
  function Within(rows: seq<Settlement>, from: Option<int>, to: int): seq<Settlement> {
    if rows == [] then []
    else
      var rest := Within(rows[1..], from, to);
      if (from.None? || from.value <= rows[0].key.at) && rows[0].key.at <= to then [rows[0]] + rest else rest
  }

  function Skip(row: Settlement, closedAt: int): Settlement {
    if row.status.Pending? && closedAt <= row.key.at then Settlement(row.key, SkippedClosed, None) else row
  }

  function SkipFuture(rows: seq<Settlement>, closedAt: int): seq<Settlement> {
    if rows == [] then [] else [Skip(rows[0], closedAt)] + SkipFuture(rows[1..], closedAt)
  }

  // ----- The engine -----

  datatype ExitFill = ExitFill(price: Positive, fee: real, exchangeAt: int, receivedAt: int)

  datatype ClosedTrade = ClosedTrade(
    reason: CloseReason, at: int, hedge: ExitFill, risex: ExitFill, pairPnl: real, fees: real, recognized: Option<real>,
    net: Option<real>, applied: Option<real>, appliedNet: Option<real>, exitStartedAt: Option<int>, exitWait: Option<int>,
    exitFunding: Option<real>, exitPnlChange: Option<real>, degraded: bool, primaryValid: bool)

  datatype Engine = Engine(
    phase: Phase, held: Option<Position>, tick: Positive, rows: seq<Settlement>, cycle: Option<Cycle>, desk: Desk,
    processed: set<string>, log: Log, exitingSince: Option<int>, aggressiveSince: Option<int>, exitStartPnl: Option<real>,
    closed: Option<ClosedTrade>)

  /** The engine after an operation, with its answer or the error it raised. */
  datatype Out<T> = Out(engine: Engine, answer: Result<T, string>)

  /** The engine as its initialiser makes it from a full entry. */
  function Start(phase: Phase, p: Position, target: Option<Cycle>, planned: Option<Cycle>, processed: set<string>): Engine {
    var evidence := if target.Some? then target else planned;
    var rows := if evidence.None? then []
                else Upsert([RowFor(evidence.value.risex, p.openedAt)], RowFor(evidence.value.hedge, p.openedAt));
    Engine(phase, Some(p), p.makerTick, rows, target, Desk(None, map[]), processed, Log([], [], false, false),
           if phase.Exiting() then Some(p.openedAt) else None, if phase.ExitingAggressive? then Some(p.openedAt) else None,
           None, None)
  }

  function StartGap(e: Engine, at: int): Engine {
    if e.log.GapOpen() then e
    else e.(desk := CancelVersion(e.desk, DataGap, at), log := OpenGap(e.log, at, e.phase.Exiting()))
  }

  function EndGap(e: Engine, at: int): Out<()> {
    if !e.log.GapOpen() then Out(e, Err("NO_OPEN_GAP")) else Out(e.(log := CloseGap(e.log, at, e.rows)), Ok(()))
  }

  function ReconcileRow(e: Engine, update: Settlement): Out<()> {
    var rows := ApplyUpdate(e.rows, update);
    if rows.Err? then Out(e, Err(rows.error)) else Out(e.(rows := rows.value), Ok(()))
  }

  /** Updates in order, stopping at the first one refused. */
  function ReconcileRows(e: Engine, updates: seq<Settlement>): Out<()>
    decreases updates
  {
    if updates == [] then Out(e, Ok(()))
    else
      var first := ReconcileRow(e, updates[0]);
      if first.answer.Err? then first else ReconcileRows(first.engine, updates[1..])
  }

  function NextCycle(e: Engine, p: Position, at: int, next: Option<Cycle>): Out<()> {
    if e.cycle.None? || !CycleResolved(e.rows, e.cycle.value, at) || next.None? then Out(e, Ok(()))
    else if next.value.id == e.cycle.value.id then Out(e, Err("CYCLE_IDENTITY_REUSED"))
    else if next.value.risex.key.at <= e.cycle.value.end || next.value.hedge.key.at <= e.cycle.value.end then
      Out(e, Err("CYCLE_DOES_NOT_FOLLOW"))
    else
      var rows := Register(e.rows, next.value, p.openedAt);
      if rows.Err? then Out(e, Err(rows.error)) else Out(e.(rows := rows.value, cycle := next), Ok(()))
  }

  /** Every figure of a closed trade that depends on funding, from the rows as they are now. */
  function Recomputed(closed: ClosedTrade, rows: seq<Settlement>): ClosedTrade {
    var recognized := Recognized(rows);
    var applied := if rows != [] && AppliedRateComplete(rows) then recognized else None;
    var window := if closed.exitStartedAt.None? then None else Recognized(Within(rows, closed.exitStartedAt, closed.at));
    closed.(
    recognized := recognized,
    net := if recognized.None? then None else Some(recognized.value + closed.pairPnl - closed.fees),
    applied := applied,
    appliedNet := if applied.None? then None else Some(applied.value + closed.pairPnl - closed.fees),
    exitFunding := window,
    primaryValid := !closed.degraded && SimulatedComplete(rows))
  }

  function Recompute(e: Engine): Engine {
    if e.closed.None? then e else e.(closed := Some(Recomputed(e.closed.value, e.rows)))
  }

  /** The closed trade before any funding is counted. */
  function Unfunded(e: Engine, p: Position, risex: ExitFill, hedge: ExitFill, reason: CloseReason, at: int): ClosedTrade {
    var pairPnl := p.PairPnl(risex.price, hedge.price);
    ClosedTrade(
      reason, at, hedge, risex, pairPnl, p.entryFees + hedge.fee + risex.fee, None, None, None, None, e.exitingSince,
      if e.exitingSince.None? then None else Some(at - e.exitingSince.value), None,
      if e.exitStartPnl.None? then None else Some(pairPnl - e.exitStartPnl.value), e.log.degraded, false)
  }

  function Close(e: Engine, p: Position, risex: ExitFill, hedge: ExitFill, reason: CloseReason, at: int): Engine {
    var rows := SkipFuture(e.rows, at);
    e.(rows := rows, phase := Flat, held := None, closed := Some(Recomputed(Unfunded(e, p, risex, hedge, reason, at), rows)),
    log := e.log.Append(PositionClosed, at, Some(reason)))
  }

  function HardClose(e: Engine, p: Position, at: int, look: Look): Engine {
    if look.risexProof.None? || look.hedgeProof.None? then e.(log := RecordUnavailable(e.log, at))
    else
      var risex := ExitFill(look.risexProof.value, p.FeeOf(true, false, look.risexProof.value), at, at);
      var hedge := ExitFill(look.hedgeProof.value, p.FeeOf(false, false, look.hedgeProof.value), at, at);
      Close(e.(desk := CancelVersion(e.desk, HardBasis, at)), p, risex, hedge, HardBasisClose, at)
  }

  // ----- Planning -----

  function MakerPrice(p: Position, look: Look, mode: Phase): Option<Positive> {
    ExitMakerPrice(look.makerBook, p.MakerExitSide(), mode, p.makerTick)
  }

  /** What leaving now through the maker leg would net, when everything it needs is known. */
  function MakerNet(e: Engine, p: Position, at: int, look: Look): Option<real>
    requires look.Priced()
  {
    var price := MakerPrice(p, look, e.phase);
    var recognized := Recognized(Within(e.rows, None, at));
    if price.None? || recognized.None? then None
    else
      var other := if p.Lighter() then look.hedgeTaker.value else look.risexTaker.value;
      Some(recognized.value + p.MakerPairPnl(look, price.value) - p.entryFees
           - (p.FeeOf(p.Lighter(), true, price.value) + p.FeeOf(!p.Lighter(), false, other)))
  }

  /** Holding to the target pays more than leaving now. */
  predicate WorthHolding(e: Engine, p: Position, at: int, look: Look)
    requires look.Priced()
  {
    var net, remaining := MakerNet(e, p, at, look), RemainingFunding(e.cycle, at);
    net.Some? && remaining.Some? && net.value + remaining.value > net.value
  }

  function Baseline(p: Position, look: Look, mode: Phase): Option<real>
    requires look.Priced()
  {
    var price := MakerPrice(p, look, mode);
    if price.None? then None else Some(p.MakerPairPnl(look, price.value))
  }

  function Reprice(e: Engine, p: Position, at: int, look: Look, transition: bool): Engine {
    e.(desk := EnsureVersion(e.desk, p, MakerPrice(p, look, e.phase), e.phase, at, transition))
  }

  /** The exit decision once prices are known and the basis has held. */
  function Plan(e: Engine, p: Position, at: int, look: Look): Out<()>
    requires look.Priced()
  {
    var based := if e.phase.Exiting() && e.exitStartPnl.None? then e.(exitStartPnl := Baseline(p, look, e.phase)) else e;
    match e.phase
    case Holding =>
      if WorthHolding(e, p, at, look) then Out(based, Ok(()))
      else
        var exiting := based.(phase := ExitingNormal, exitingSince := Some(at), exitStartPnl := Baseline(p, look, Holding),
                              log := based.log.Append(NormalExitStarted, at, None));
        Out(Reprice(exiting, p, at, look, false), Ok(()))
    case ExitingNormal =>
      if e.exitingSince.None? then Out(based, Err("EXIT_START_MISSING"))
      else if at - e.exitingSince.value >= AGGRESSIVE_AFTER then
        var pressing := based.(phase := ExitingAggressive,
                               aggressiveSince := if e.aggressiveSince.None? then Some(at) else e.aggressiveSince,
                               log := based.log.Append(AggressiveExitStarted, at, None));
        Out(Reprice(pressing, p, at, look, true), Ok(()))
      else Out(Reprice(based, p, at, look, false), Ok(()))
    case _ => Out(Reprice(based, p, at, look, false), Ok(()))
  }

  // ----- Operations -----

  function Evaluate(e: Engine, at: int, look: Look, next: Option<Cycle>, hardOnly: bool): Out<()> {
    if e.held.None? then Out(e, Err("NO_OPEN_POSITION"))
    else if e.log.GapOpen() then Out(e, Ok(()))
    else if !look.healthy then Out(StartGap(e, at), Ok(()))
    else if !look.Priced() then
      if hardOnly then Out(e, Ok(()))
      else
        var noted := e.(log := RecordUnavailable(e.log, at));
        Out(if look.risexTaker.None? then noted.(desk := CancelVersion(e.desk, UnwindUnavailable, at)) else noted, Ok(()))
    else
      var p := e.held.value;
      var priced := e.(log := e.log.(unavailable := false));
      if p.BasisBroken(look) then Out(HardClose(priced, p, at, look), Ok(()))
      else if hardOnly then Out(priced, Ok(()))
      else
        var cycled := NextCycle(priced, p, at, next);
        if cycled.answer.Err? then cycled else Plan(cycled.engine, p, at, look)
  }

  function Recover(e: Engine, at: int, look: Look, next: Option<Cycle>, updates: seq<Settlement>): Out<()> {
    if !look.healthy then Out(e, Err("RECOVERY_REQUIRES_HEALTHY_SNAPSHOTS"))
    else
      var ended := EndGap(e, at);
      if ended.answer.Err? then ended
      else
        var reconciled := ReconcileRows(ended.engine, updates);
        if reconciled.answer.Err? then reconciled else Evaluate(reconciled.engine, at, look, next, false)
  }

  function Restart(e: Engine, lastKnown: int, at: int, look: Look, next: Option<Cycle>, updates: seq<Settlement>): Out<()> {
    if e.held.None? then Out(e, Err("NO_OPEN_POSITION"))
    else
      var gapped := StartGap(e.(desk := CancelVersion(e.desk, ProcessRestart, at)), lastKnown);
      if !look.healthy then Out(gapped, Ok(())) else Recover(gapped, at, look, next, updates)
  }

  datatype TradeOutcome = Ignored(why: string) | Accumulated | ClosedBy | Suspended

  function FillVersion(desk: Desk, at: int): Desk
    requires desk.Active().Some?
  {
    desk.WithLast(desk.Active().value.(cumulative := desk.order.value.quantity, status := Filled, closedAt := Some(at)))
  }

  /** Close on the trades counted for the active version. */
  function MakerClose(e: Engine, p: Position, trade: Trade, at: int, proof: Positive): Engine
    requires e.desk.Active().Some? && trade.exchangeAt.Some?
  {
    var v := e.desk.Active().value;
    var maker := ExitFill(v.limit, p.FeeOf(p.Lighter(), true, v.limit), trade.exchangeAt.value, trade.receivedAt);
    var taker := ExitFill(proof, p.FeeOf(!p.Lighter(), false, proof), at, at);
    var reason := if v.mode.ExitingAggressive? then AggressiveMaker else NormalMaker;
    var filled := e.(desk := FillVersion(e.desk, at));
    if p.Lighter() then Close(filled, p, maker, taker, reason, at) else Close(filled, p, taker, maker, reason, at)
  }

  /** One eligible trade, counted for the active version. */
  function Tally(e: Engine, p: Position, trade: Trade, at: int, healthy: bool, proof: Option<Positive>): Out<TradeOutcome>
    requires e.desk.Active().Some? && trade.exchangeAt.Some?
  {
    var v, order := e.desk.Active().value, e.desk.order.value;
    var counted := e.(desk := e.desk.(qualifying := e.desk.qualifying[v.number := e.desk.Counted(v.number) + [trade]]));
    if v.cumulative + trade.quantity < order.quantity then
      Out(counted.(desk := counted.desk.WithLast(v.(cumulative := v.cumulative + trade.quantity))), Ok(Accumulated))
    else if !healthy then Out(StartGap(counted, at), Ok(Suspended))
    else if proof.None? then
      Out(counted.(log := RecordUnavailable(counted.log, at), desk := CancelVersion(counted.desk, UnwindUnavailable, at)),
          Ok(Suspended))
    else Out(MakerClose(counted, p, trade, at, proof.value), Ok(ClosedBy))
  }

  function ProcessExitTrade(e: Engine, trade: Trade, observed: nat, at: int, healthy: bool, proof: Option<Positive>)
    : Out<TradeOutcome>
  {
    var active := e.desk.Active();
    if e.held.None? then Out(e, Err("NO_OPEN_POSITION"))
    else if active.None? then Out(e, Ok(Ignored("NO_ACTIVE_EXIT_VERSION")))
    else if observed != active.value.number then Out(e, Ok(Ignored("STALE_EXIT_VERSION")))
    else if trade.key in e.processed then Out(e, Ok(Ignored("DUPLICATE_EVENT_KEY")))
    else
      var p, v, order := e.held.value, active.value, e.desk.order.value;
      var seen := e.(processed := e.processed + {trade.key});
      if !Eligible(order, v.limit, e.tick, trade) then Out(seen, Ok(Ignored("TRADE_INELIGIBLE")))
      else if trade.exchangeAt.value > at || trade.receivedAt > at then Out(seen, Ok(Ignored("TRADE_FUTURE_DATED")))
      else Tally(seen, p, trade, at, healthy, proof)
  }

  function ReconcileSettlement(e: Engine, update: Settlement): Out<()> {
    var reconciled := ReconcileRow(e, update);
    if reconciled.answer.Err? then reconciled else Out(Recompute(reconciled.engine), Ok(()))
  }

  /** Does the official history's missing row change this table? */
  predicate MarksUnresolved(rows: seq<Settlement>, update: Settlement) {
    && RowAt(rows, update.key).Some? && update.key.venue.Extended? && update.status.Unresolved? && update.cash.None?
    && var row := rows[RowAt(rows, update.key).value]; row.status.Pending? || row.status.Estimated?
  }

  /** Rewrites the row and leaves every closed figure as it was. */
  function MarkUnresolved(e: Engine, update: Settlement): Engine {
    if MarksUnresolved(e.rows, update) then e.(rows := Upsert(e.rows, update)) else e
  }

  // ----- Runs -----

  /** A restart opens its gap at the last known instant, unless one is open, and ends it only on healthy books. */
  predicate RestartTimely(log: Log, lastKnown: int, at: int, healthy: bool) {
    && (log.GapOpen() || log.Timely(lastKnown))
    && (healthy ==> log.Timely(at) && (log.GapOpen() || lastKnown <= at))
  }

  datatype Op =
    | EvaluateAt(at: int, look: Look, next: Option<Cycle>, hardOnly: bool)
    | StartGapAt(at: int)
    | RecoverAt(at: int, look: Look, next: Option<Cycle>, updates: seq<Settlement>)
    | RestartAt(lastKnown: int, at: int, look: Look, next: Option<Cycle>, updates: seq<Settlement>)
    | ExitTrade(trade: Trade, observed: nat, at: int, healthy: bool, proof: Option<Positive>)
    | Settle(update: Settlement)
    | Mark(update: Settlement)
  {
    /** The clock the engine is driven by does not run backwards. */
    predicate Timely(log: Log) {
      match this
      case RestartAt(lastKnown, at, look, _, _) => RestartTimely(log, lastKnown, at, look.healthy)
      case EvaluateAt(at, _, _, _) => log.Timely(at)
      case StartGapAt(at) => log.GapOpen() || log.Timely(at)
      case RecoverAt(at, _, _, _) => log.Timely(at)
      case ExitTrade(_, _, at, _, _) => log.Timely(at)
      case _ => true
    }
  }

  function Step(e: Engine, op: Op): Engine {
    match op
    case EvaluateAt(at, look, next, hardOnly) => Evaluate(e, at, look, next, hardOnly).engine
    case StartGapAt(at) => if e.held.None? then e else StartGap(e, at)
    case RecoverAt(at, look, next, updates) => Recover(e, at, look, next, updates).engine
    case RestartAt(lastKnown, at, look, next, updates) => Restart(e, lastKnown, at, look, next, updates).engine
    case ExitTrade(trade, observed, at, healthy, proof) => ProcessExitTrade(e, trade, observed, at, healthy, proof).engine
    case Settle(update) => ReconcileSettlement(e, update).engine
    case Mark(update) => MarkUnresolved(e, update)
  }

  /** A run from a full entry under a clock that does not go backwards. */
  ghost predicate IsRun(trace: seq<Engine>, ops: seq<Op>) {
    && |trace| == |ops| + 1
    && (exists phase: Phase, p: Position, target: Option<Cycle>, planned: Option<Cycle>, processed: set<string> ::
          WellStarted(phase, p, target, planned) && trace[0] == Start(phase, p, target, planned, processed))
    && forall i | 0 <= i < |ops| :: ops[i].Timely(trace[i].log) && trace[i + 1] == Step(trace[i], ops[i])
  }

  /** The initialiser refuses a flat phase; the hedge leg is not on RISEX and the two rows of a cycle are on different venues. */
  predicate WellStarted(phase: Phase, p: Position, target: Option<Cycle>, planned: Option<Cycle>) {
    && !phase.Flat? && !p.hedgeVenue.Risex?
    && (target.Some? ==> target.value.risex.key.venue != target.value.hedge.key.venue)
    && (planned.Some? ==> planned.value.risex.key.venue != planned.value.hedge.key.venue)
  }
}

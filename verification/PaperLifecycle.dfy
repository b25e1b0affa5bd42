/**
 The paper engine as the program it is: fields rewritten step by step, each method proved to leave
 exactly the state its specification function gives.
 */
module PaperLifecycle {
  import opened Wrappers
  import opened Funding
  import opened PaperMarket
  import opened PaperEngine

  class LifecycleEngine {
    const tick: Positive
    var phase: Phase
    var held: Option<Position>
    var rows: seq<Settlement>
    var cycle: Option<Cycle>
    var order: Option<ExitOrder>
    var qualifying: map<nat, seq<Trade>>
    var processed: set<string>
    var gaps: seq<Gap>
    var events: seq<Event>
    var degraded: bool
    var unavailable: bool
    var exitingSince: Option<int>
    var aggressiveSince: Option<int>
    var exitStartPnl: Option<real>
    var closed: Option<ClosedTrade>

    ghost function View(): Engine
      reads this
    {
      Engine(phase, held, tick, rows, cycle, Desk(order, qualifying), processed, Log(gaps, events, degraded, unavailable),
             exitingSince, aggressiveSince, exitStartPnl, closed)
    }

    constructor (start: Phase, position: Position, target: Option<Cycle>, planned: Option<Cycle>, seen: set<string>)
      requires !start.Flat?
      ensures View() == Start(start, position, target, planned, seen)
    {
      var evidence := if target.Some? then target else planned;
      tick, phase, held, cycle, processed := position.makerTick, start, Some(position), target, seen;
      rows := if evidence.None? then []
              else Upsert([RowFor(evidence.value.risex, position.openedAt)], RowFor(evidence.value.hedge, position.openedAt));
      order, qualifying := None, map[];
      gaps, events, degraded, unavailable := [], [], false, false;
      exitingSince := if start.Exiting() then Some(position.openedAt) else None;
      aggressiveSince := if start.ExitingAggressive? then Some(position.openedAt) else None;
      exitStartPnl, closed := None, None;
    }

    // ----- The exit order -----

    method CancelExitVersion(reason: VersionReason, at: int)
      modifies this
      ensures View() == old(View()).(desk := CancelVersion(old(View()).desk, reason, at))
    {
      if order.None? || order.value.versions == [] { return; }
      var versions := order.value.versions;
      var active := versions[|versions| - 1];
      if !active.status.Open? { return; }
      qualifying := qualifying - {active.number};
      var causal := Latest(at, active.createdAt, active.checkedAt);
      var version := active.(status := Cancelled, closedAt := Some(causal), reason := Some(reason));
      order := Some(order.value.(versions := versions[..|versions| - 1] + [version]));
    }

    method NewExitVersion(p: Position, price: Positive, mode: Phase, at: int)
      modifies this
      ensures View() == old(View()).(desk := NewVersion(old(View()).desk, p, price, mode, at))
    {
      var current;
      var number := 1;
      if order.None? {
        current := ExitOrder(p.MakerVenue(), p.makerMarket, p.MakerExitSide(), p.quantity, []);
      } else {
        current := order.value;
        if current.versions != [] {
          number := current.versions[|current.versions| - 1].number + 1;
        }
      }
      var version := Version(number, mode, price, at, at, 0.0, Open, None, None);
      order := Some(current.(versions := current.versions + [version]));
    }

    method EnsureExitVersion(p: Position, at: int, look: Look, transition: bool)
      modifies this
      ensures View() == Reprice(old(View()), p, at, look, transition)
    {
      var mode := phase;
      var price := MakerPrice(p, look, mode);
      if price.None? { return; }
      if order.None? || order.value.versions == [] || !order.value.versions[|order.value.versions| - 1].status.Open? {
        NewExitVersion(p, price.value, mode, at);
        return;
      }
      var versions := order.value.versions;
      var active := versions[|versions| - 1];
      if transition {
        qualifying := qualifying - {active.number};
        var replaced := active.(status := Replaced, closedAt := Some(at), reason := Some(AggressiveTransition));
        order := Some(order.value.(versions := versions[..|versions| - 1] + [replaced]));
        NewExitVersion(p, price.value, mode, at);
        return;
      }
      if at - active.checkedAt < REPRICE { return; }
      if active.limit == price.value {
        order := Some(order.value.(versions := versions[..|versions| - 1] + [active.(checkedAt := at)]));
        return;
      }
      var superseded := active.(status := Replaced, closedAt := Some(at), reason := Some(PriceChanged));
      qualifying := qualifying - {active.number};
      order := Some(order.value.(versions := versions[..|versions| - 1] + [superseded]));
      NewExitVersion(p, price.value, mode, at);
    }

    // ----- Gaps and events -----

    method AppendEvent(kind: EventKind, at: int, detail: Option<CloseReason>)
      modifies this`events
      ensures View() == old(View()).(log := old(View()).log.Append(kind, at, detail))
    {
      events := events + [Event(kind, at, detail)];
    }

    method StartGapLocked(at: int)
      modifies this
      ensures View() == StartGap(old(View()), at)
    {
      if gaps != [] && gaps[|gaps| - 1].end.None? { return; }
      var overlapped := phase.Exiting();
      CancelExitVersion(DataGap, at);
      degraded := true;
      gaps := gaps + [Gap(at, None, false, overlapped)];
      AppendEvent(GapStarted, at, None);
    }

    method EndGapLocked(at: int) returns (answer: Result<(), string>)
      modifies this
      ensures Out(View(), answer) == EndGap(old(View()), at)
    {
      if gaps == [] || gaps[|gaps| - 1].end.Some? { return Err("NO_OPEN_GAP"); }
      var gap := gaps[|gaps| - 1];
      var overlapped := exists row <- rows :: gap.start <= row.key.at <= at;
      gaps := gaps[..|gaps| - 1] + [gap.(end := Some(at), overlappedFunding := overlapped)];
      AppendEvent(GapEnded, at, None);
      return Ok(());
    }

    method NoteUnavailable(at: int)
      modifies this
      ensures View() == old(View()).(log := RecordUnavailable(old(View()).log, at))
    {
      if !unavailable {
        AppendEvent(UnwindUnavailableSeen, at, None);
      }
      degraded, unavailable := true, true;
    }

    // ----- Funding -----

    method ReconcileLocked(update: Settlement) returns (answer: Result<(), string>)
      modifies this`rows
      ensures Out(View(), answer) == ReconcileRow(old(View()), update)
    {
      var at := RowAt(rows, update.key);
      if at.None? { return Err("SETTLEMENT_KEY_NOT_REGISTERED"); }
      var current := rows[at.value];
      if current == update { return Ok(()); }
      if current.status == update.status { return Err("CONFLICTING_DUPLICATE_STATUS"); }
      var replaced := ReplaceSettlement(current, update.status, update.cash);
      if replaced.Err? { return Err(replaced.error); }
      rows := Upsert(rows, replaced.value);
      return Ok(());
    }

    method ReconcileAll(updates: seq<Settlement>) returns (answer: Result<(), string>)
      modifies this`rows
      ensures Out(View(), answer) == ReconcileRows(old(View()), updates)
    {
      for k := 0 to |updates|
        invariant ReconcileRows(old(View()), updates) == ReconcileRows(View(), updates[k..])
      {
        assert updates[k..][1..] == updates[k + 1..];
        answer := ReconcileLocked(updates[k]);
        if answer.Err? { return; }
      }
      return Ok(());
    }

    method MaybeRegisterNextCycle(p: Position, at: int, next: Option<Cycle>) returns (answer: Result<(), string>)
      modifies this
      ensures Out(View(), answer) == NextCycle(old(View()), p, at, next)
    {
      if cycle.None? || !CycleResolved(rows, cycle.value, at) || next.None? { return Ok(()); }
      if next.value.id == cycle.value.id { return Err("CYCLE_IDENTITY_REUSED"); }
      if next.value.risex.key.at <= cycle.value.end || next.value.hedge.key.at <= cycle.value.end {
        return Err("CYCLE_DOES_NOT_FOLLOW");
      }
      var table := rows;
      for k := 0 to 2
        invariant k == 0 ==> table == rows
        invariant k >= 1 ==> !Conflicts(rows, RowFor(next.value.risex, p.openedAt))
        invariant k == 1 ==> table == AddRow(rows, RowFor(next.value.risex, p.openedAt))
        invariant k == 2 ==> Register(rows, next.value, p.openedAt) == Ok(table)
        invariant View() == old(View())
      {
        var row := RowFor(if k == 0 then next.value.risex else next.value.hedge, p.openedAt);
        if Conflicts(table, row) { return Err("FUNDING_EVENT_CONFLICT"); }
        table := AddRow(table, row);
      }
      rows, cycle := table, next;
      return Ok(());
    }

    method MarkFutureClosedSkips(at: int)
      modifies this`rows
      ensures View() == old(View()).(rows := SkipFuture(old(rows), at))
    {
      var marked := [];
      for k := 0 to |rows|
        invariant SkipFuture(rows, at) == marked + SkipFuture(rows[k..], at)
        invariant rows == old(rows)
      {
        assert rows[k..][1..] == rows[k + 1..];
        marked := marked + [Skip(rows[k], at)];
      }
      rows := marked;
    }

    method RecomputeClosed()
      modifies this`closed
      ensures View() == Recompute(old(View()))
    {
      if closed.None? { return; }
      var trade := closed.value;
      var recognized := RecognizedFunding(rows);
      var net := if recognized.None? then None else Some(recognized.value + trade.pairPnl - trade.fees);
      var applied := if rows != [] && AppliedRateComplete(rows) then recognized else None;
      var appliedNet := if applied.None? then None else Some(applied.value + trade.pairPnl - trade.fees);
      var exitFunding := None;
      if trade.exitStartedAt.Some? {
        exitFunding := RecognizedFunding(Within(rows, trade.exitStartedAt, trade.at));
      }
      closed := Some(trade.(recognized := recognized, net := net, applied := applied, appliedNet := appliedNet,
                     exitFunding := exitFunding, primaryValid := !trade.degraded && SimulatedComplete(rows)));
    }

    // ----- Closing -----

    method DraftClose(p: Position, risex: ExitFill, hedge: ExitFill, reason: CloseReason, at: int) returns (trade: ClosedTrade)
      ensures trade == Unfunded(View(), p, risex, hedge, reason, at)
    {
      var pairPnl := p.PairPnl(risex.price, hedge.price);
      var fees := p.entryFees + hedge.fee + risex.fee;
      var wait := if exitingSince.None? then None else Some(at - exitingSince.value);
      var change := if exitStartPnl.None? then None else Some(pairPnl - exitStartPnl.value);
      return ClosedTrade(reason, at, hedge, risex, pairPnl, fees, None, None, None, None, exitingSince, wait, None, change, degraded, false);
    }

    method CloseLocked(p: Position, risex: ExitFill, hedge: ExitFill, reason: CloseReason, at: int)
      modifies this
      ensures View() == Close(old(View()), p, risex, hedge, reason, at)
    {
      hide Recomputed, SkipFuture, Unfunded;
      var trade := DraftClose(p, risex, hedge, reason, at);
      MarkFutureClosedSkips(at);
      phase, held, closed := Flat, None, Some(trade);
      RecomputeClosed();
      AppendEvent(PositionClosed, at, Some(reason));
    }

    method CloseOnBrokenBasis(p: Position, at: int, look: Look)
      modifies this
      ensures View() == HardClose(old(View()), p, at, look)
    {
      if look.risexProof.None? || look.hedgeProof.None? {
        NoteUnavailable(at);
        return;
      }
      CancelExitVersion(HardBasis, at);
      var hedge := ExitFill(look.hedgeProof.value, p.FeeOf(false, false, look.hedgeProof.value), at, at);
      var risex := ExitFill(look.risexProof.value, p.FeeOf(true, false, look.risexProof.value), at, at);
      CloseLocked(p, risex, hedge, HardBasisClose, at);
    }

    // ----- Evaluation -----

    /** The patient exit begins: phase, clock, baseline, event and first price. */
    method StartExit(p: Position, at: int, look: Look)
      requires look.Priced()
      modifies this
      ensures var e := old(View());
        View() == Reprice(e.(phase := ExitingNormal, exitingSince := Some(at), exitStartPnl := Baseline(p, look, Holding),
                             log := e.log.Append(NormalExitStarted, at, None)), p, at, look, false)
    {
      hide Baseline, Reprice;
      phase, exitingSince, exitStartPnl := ExitingNormal, Some(at), Baseline(p, look, Holding);
      AppendEvent(NormalExitStarted, at, None);
      EnsureExitVersion(p, at, look, false);
    }

    /** The aggressive exit replaces the patient one. */
    method PressExit(p: Position, at: int, look: Look)
      requires look.Priced()
      modifies this
      ensures var e := old(View());
        View() == Reprice(e.(phase := ExitingAggressive,
                             aggressiveSince := if e.aggressiveSince.None? then Some(at) else e.aggressiveSince,
                             log := e.log.Append(AggressiveExitStarted, at, None)), p, at, look, true)
    {
      hide Reprice;
      phase := ExitingAggressive;
      if aggressiveSince.None? { aggressiveSince := Some(at); }
      AppendEvent(AggressiveExitStarted, at, None);
      EnsureExitVersion(p, at, look, true);
    }

    method Decide(p: Position, at: int, look: Look) returns (answer: Result<(), string>)
      requires look.Priced()
      modifies this
      ensures Out(View(), answer) == Plan(old(View()), p, at, look)
    {
      hide MakerPrice, WorthHolding, Baseline, Reprice;
      ghost var before := View();
      var worth := WorthHolding(Engine(phase, held, tick, rows, cycle, Desk(order, qualifying), processed,
                                       Log(gaps, events, degraded, unavailable), exitingSince, aggressiveSince, exitStartPnl, closed), p, at,
                                look);
      if phase.Exiting() && exitStartPnl.None? {
        exitStartPnl := Baseline(p, look, phase);
      }
      if phase.Holding? {
        if worth { return Ok(()); }
        StartExit(p, at, look);
        return Ok(());
      }
      if phase.ExitingNormal? {
        if exitingSince.None? { return Err("EXIT_START_MISSING"); }
        if at - exitingSince.value >= AGGRESSIVE_AFTER {
          PressExit(p, at, look);
          return Ok(());
        }
      }
      EnsureExitVersion(p, at, look, false);
      return Ok(());
    }

    method EvaluateLocked(at: int, look: Look, next: Option<Cycle>, hardOnly: bool) returns (answer: Result<(), string>)
      modifies this
      ensures Out(View(), answer) == Evaluate(old(View()), at, look, next, hardOnly)
    {
      hide Plan, HardClose, NextCycle, CancelVersion, RecordUnavailable, OpenGap, Position.BasisBroken;
      if held.None? { return Err("NO_OPEN_POSITION"); }
      var p := held.value;
      if gaps != [] && gaps[|gaps| - 1].end.None? { return Ok(()); }
      if !look.healthy {
        StartGapLocked(at);
        return Ok(());
      }
      if look.risexTaker.None? || look.hedgeTaker.None? {
        if hardOnly { return Ok(()); }
        NoteUnavailable(at);
        if look.risexTaker.None? {
          CancelExitVersion(UnwindUnavailable, at);
        }
        return Ok(());
      }
      unavailable := false;
      if p.BasisBroken(look) {
        CloseOnBrokenBasis(p, at, look);
        return Ok(());
      }
      if hardOnly { return Ok(()); }
      answer := MaybeRegisterNextCycle(p, at, next);
      if answer.Err? { return; }
      answer := Decide(p, at, look);
    }

    method RecoverLocked(at: int, look: Look, next: Option<Cycle>, updates: seq<Settlement>) returns (answer: Result<(), string>)
      modifies this
      ensures Out(View(), answer) == Recover(old(View()), at, look, next, updates)
    {
      hide Evaluate, EndGap, ReconcileRows;
      if !look.healthy { return Err("RECOVERY_REQUIRES_HEALTHY_SNAPSHOTS"); }
      answer := EndGapLocked(at);
      if answer.Err? { return; }
      answer := ReconcileAll(updates);
      if answer.Err? { return; }
      answer := EvaluateLocked(at, look, next, false);
    }

    method RestartLocked(lastKnown: int, at: int, look: Look, next: Option<Cycle>, updates: seq<Settlement>)
      returns (answer: Result<(), string>)
      modifies this
      ensures Out(View(), answer) == Restart(old(View()), lastKnown, at, look, next, updates)
    {
      hide Recover, StartGap, CancelVersion;
      if held.None? { return Err("NO_OPEN_POSITION"); }
      CancelExitVersion(ProcessRestart, at);
      StartGapLocked(lastKnown);
      if !look.healthy { return Ok(()); }
      answer := RecoverLocked(at, look, next, updates);
    }

    // ----- Exit trades -----

    method ProcessTrade(trade: Trade, observed: nat, at: int, healthy: bool, proof: Option<Positive>)
      returns (answer: Result<TradeOutcome, string>)
      modifies this
      ensures Out(View(), answer) == ProcessExitTrade(old(View()), trade, observed, at, healthy, proof)
    {
      hide Tally;
      if held.None? { return Err("NO_OPEN_POSITION"); }
      if order.None? || order.value.versions == [] || !order.value.versions[|order.value.versions| - 1].status.Open? {
        return Ok(Ignored("NO_ACTIVE_EXIT_VERSION"));
      }
      var p, versions := held.value, order.value.versions;
      var active := versions[|versions| - 1];
      if observed != active.number { return Ok(Ignored("STALE_EXIT_VERSION")); }
      if trade.key in processed { return Ok(Ignored("DUPLICATE_EVENT_KEY")); }
      processed := processed + {trade.key};
      if !Eligible(order.value, active.limit, tick, trade) { return Ok(Ignored("TRADE_INELIGIBLE")); }
      if trade.exchangeAt.value > at || trade.receivedAt > at { return Ok(Ignored("TRADE_FUTURE_DATED")); }
      answer := CountTrade(p, trade, at, healthy, proof);
    }

    /** Count an eligible trade for the active version, and close once its quantity is reached. */
    method CountTrade(p: Position, trade: Trade, at: int, healthy: bool, proof: Option<Positive>)
      returns (answer: Result<TradeOutcome, string>)
      requires View().desk.Active().Some? && trade.exchangeAt.Some?
      modifies this
      ensures Out(View(), answer) == Tally(old(View()), p, trade, at, healthy, proof)
    {
      hide StartGap, CancelVersion, RecordUnavailable, MakerClose;
      var versions := order.value.versions;
      var active := versions[|versions| - 1];
      qualifying := qualifying[active.number := (if active.number in qualifying then qualifying[active.number] else []) + [trade]];
      var cumulative := active.cumulative + trade.quantity;
      if cumulative < order.value.quantity {
        order := Some(order.value.(versions := versions[..|versions| - 1] + [active.(cumulative := cumulative)]));
        return Ok(Accumulated);
      }
      if !healthy {
        StartGapLocked(at);
        return Ok(Suspended);
      }
      if proof.None? {
        NoteUnavailable(at);
        CancelExitVersion(UnwindUnavailable, at);
        return Ok(Suspended);
      }
      CloseByMaker(p, trade, at, proof.value);
      return Ok(ClosedBy);
    }

    /** The counted trades fill the active version, and the other leg is taken at its proven price. */
    method CloseByMaker(p: Position, trade: Trade, at: int, proof: Positive)
      requires View().desk.Active().Some? && trade.exchangeAt.Some?
      modifies this
      ensures View() == MakerClose(old(View()), p, trade, at, proof)
    {
      hide Close, Position.FeeOf;
      var versions := order.value.versions;
      var active := versions[|versions| - 1];
      var maker := ExitFill(active.limit, p.FeeOf(p.Lighter(), true, active.limit), trade.exchangeAt.value, trade.receivedAt);
      var taker := ExitFill(proof, p.FeeOf(!p.Lighter(), false, proof), at, at);
      var reason := if active.mode.ExitingAggressive? then AggressiveMaker else NormalMaker;
      var filled := active.(cumulative := order.value.quantity, status := Filled, closedAt := Some(at));
      order := Some(order.value.(versions := versions[..|versions| - 1] + [filled]));
      if p.Lighter() {
        CloseLocked(p, maker, taker, reason, at);
      } else {
        CloseLocked(p, taker, maker, reason, at);
      }
    }

    // ----- Settlements -----

    method Reconcile(update: Settlement) returns (answer: Result<(), string>)
      modifies this
      ensures Out(View(), answer) == ReconcileSettlement(old(View()), update)
    {
      answer := ReconcileLocked(update);
      if answer.Err? { return; }
      if closed.Some? {
        RecomputeClosed();
      }
    }

    method MarkHistoryUnresolved(update: Settlement)
      modifies this
      ensures View() == MarkUnresolved(old(View()), update)
    {
      var at := RowAt(rows, update.key);
      if at.None? || !update.key.venue.Extended? || !update.status.Unresolved? || update.cash.Some? { return; }
      var current := rows[at.value];
      if !current.status.Pending? && !current.status.Estimated? { return; }
      rows := Upsert(rows, update);
    }
  }
}

/**
 Every operation of the paper engine keeps its invariant and only moves forward.
 */
module PaperSteps {
  import opened Wrappers
  import opened Funding
  import opened PaperMarket
  import opened PaperEngine
  import opened PaperDesk
  import opened PaperInvariant

  lemma StartGapKeeps(e: Engine, at: int)
    requires Inv(e) && e.held.Some? && (e.log.GapOpen() || e.log.Timely(at))
    ensures Kept(e, StartGap(e, at)) && StartGap(e, at).log.GapOpen() && StartGap(e, at).held == e.held
    ensures StartGap(e, at).log == e.log || StartGap(e, at).log.Timely(at)
  {
    hide DeskOk, DeskGrows, RowsOk, Climbed, LogOk, LogGrows, OrderTerms, NotFilled, Registered;
    if e.log.GapOpen() {
      KeptReflexive(e);
    } else {
      var cancelled := e.(desk := CancelVersion(e.desk, DataGap, at));
      var log := OpenGap(e.log, at, e.phase.Exiting());
      CancelHolds(e, DataGap, at);
      CancelKeeps(e.desk, e.tick, e.processed, DataGap, at);
      OpenGapKeeps(e.log, at, e.phase.Exiting());
      LogKeeps(cancelled, log);
      KeptTransitive(e, cancelled, cancelled.(log := log));
    }
  }

  lemma EndGapKeeps(e: Engine, at: int)
    requires Inv(e) && e.log.Timely(at)
    ensures var out := EndGap(e, at);
      && Kept(e, out.engine) && out.engine.log.Timely(at) && out.engine.held == e.held && !out.engine.log.GapOpen()
      && (out.answer.Ok? <==> e.log.GapOpen())
  {
    hide DeskOk, DeskGrows, RowsOk, Climbed, LogOk, LogGrows, OrderTerms, NotFilled, Registered, CloseGap;
    if e.log.GapOpen() {
      CloseGapKeeps(e.log, at, e.rows);
      LogKeeps(e, CloseGap(e.log, at, e.rows));
    } else {
      KeptReflexive(e);
    }
  }

  lemma ReconcileKeeps(e: Engine, update: Settlement)
    requires Inv(e)
    ensures var out := ReconcileRow(e, update); Kept(e, out.engine) && out.engine == e.(rows := out.engine.rows)
  {
    hide DeskOk, DeskGrows, RowsOk, Climbed, LogOk, LogGrows, OrderTerms, NotFilled, Registered, ApplyUpdate, Inv, Kept;
    var rows := ApplyUpdate(e.rows, update);
    UpdateKeeps(e.rows, update) by { InvRows(e); }
    if rows.Ok? {
      RowsKeep(e, rows.value);
    } else {
      KeptReflexive(e);
    }
  }

  lemma InvRows(e: Engine)
    requires Inv(e)
    ensures RowsOk(e.rows)
  {
  }

  lemma KeptInv(a: Engine, b: Engine)
    requires Kept(a, b)
    ensures Inv(b)
  {
  }

  lemma {:induction false} ReconcileAllKeep(e: Engine, updates: seq<Settlement>)
    requires Inv(e)
    ensures var out := ReconcileRows(e, updates); Kept(e, out.engine) && out.engine == e.(rows := out.engine.rows)
    decreases updates
  {
    hide Inv, Kept, ReconcileRow;
    if updates == [] {
      KeptReflexive(e);
    } else {
      var first := ReconcileRow(e, updates[0]);
      ReconcileKeeps(e, updates[0]);
      if first.answer.Ok? {
        KeptInv(e, first.engine);
        ReconcileAllKeep(first.engine, updates[1..]);
        KeptTransitive(e, first.engine, ReconcileRows(first.engine, updates[1..]).engine);
      }
    }
  }

  lemma NextCycleKeeps(e: Engine, p: Position, at: int, next: Option<Cycle>)
    requires Inv(e)
    ensures var out := NextCycle(e, p, at, next);
      Kept(e, out.engine) && out.engine == e.(rows := out.engine.rows, cycle := out.engine.cycle)
  {
    hide DeskOk, DeskGrows, RowsOk, Climbed, LogOk, LogGrows, OrderTerms, NotFilled, Registered, Register, CycleResolved;
    var out := NextCycle(e, p, at, next);
    if out.engine == e {
      KeptReflexive(e);
    } else {
      RegisterKeeps(e.rows, next.value, p.openedAt);
      RowsKeep(e, out.engine.rows);
    }
  }

  /** Closing keeps everything when the exit order is settled and matches the close. */
  lemma CloseKeeps(b: Engine, desk: Desk, processed: set<string>, p: Position, risex: ExitFill, hedge: ExitFill, reason: CloseReason,
                   at: int)
    requires Inv(b) && b.held == Some(p) && !b.log.GapOpen() && b.log.Timely(at)
    requires DeskOk(desk, b.tick, processed) && b.processed <= processed && DeskGrows(b.desk, desk) && desk.Active().None?
    requires ClosedTerms(desk, Close(b.(desk := desk, processed := processed), p, risex, hedge, reason, at).closed.value)
    ensures Kept(b, Close(b.(desk := desk, processed := processed), p, risex, hedge, reason, at))
  {
    hide DeskOk, DeskGrows, RowsOk, Climbed, LogOk, LogGrows, OrderTerms, NotFilled, Registered, SkipFuture, Recomputed, ClosedTerms;
    SkipKeeps(b.rows, at);
    CycleStays(b, SkipFuture(b.rows, at));
    AppendKeeps(b.log, PositionClosed, at, Some(reason));
    CloseShape(b.(desk := desk, processed := processed), p, risex, hedge, reason, at);
  }

  /** What a close changes. */
  lemma CloseShape(e: Engine, p: Position, risex: ExitFill, hedge: ExitFill, reason: CloseReason, at: int)
    ensures var after := Close(e, p, risex, hedge, reason, at);
      && after == e.(rows := SkipFuture(e.rows, at), phase := Flat, held := None, closed := after.closed,
                     log := e.log.Append(PositionClosed, at, Some(reason)))
      && after.closed.Some?
      && after.closed.value.reason == reason && after.closed.value.at == at
      && after.closed.value.risex == risex && after.closed.value.hedge == hedge
      && after.closed.value.pairPnl == p.PairPnl(risex.price, hedge.price)
      && after.closed.value.fees == p.entryFees + hedge.fee + risex.fee
      && after.closed.value == Recomputed(after.closed.value, after.rows)
  {
  }

  lemma HardCloseKeeps(e: Engine, p: Position, at: int, look: Look)
    requires Inv(e) && e.held == Some(p) && !e.log.GapOpen() && e.log.Timely(at)
    ensures Kept(e, HardClose(e, p, at, look)) && HardClose(e, p, at, look).log.Timely(at)
  {
    hide DeskOk, DeskGrows, RowsOk, Climbed, LogOk, LogGrows, OrderTerms, Registered, Recomputed, Position.PairPnl, Position.FeeOf;
    if look.risexProof.None? || look.hedgeProof.None? {
      UnavailableKeeps(e.log, at);
      LogKeeps(e, RecordUnavailable(e.log, at));
    } else {
      var risex := ExitFill(look.risexProof.value, p.FeeOf(true, false, look.risexProof.value), at, at);
      var hedge := ExitFill(look.hedgeProof.value, p.FeeOf(false, false, look.hedgeProof.value), at, at);
      var desk := CancelVersion(e.desk, PaperEngine.HardBasis, at);
      CancelKeeps(e.desk, e.tick, e.processed, PaperEngine.HardBasis, at);
      CloseShape(e.(desk := desk), p, risex, hedge, HardBasisClose, at);
      assert e.(desk := desk, processed := e.processed) == e.(desk := desk);
      CloseKeeps(e, desk, e.processed, p, risex, hedge, HardBasisClose, at);
    }
  }

  /** Moving a held position's phase forward, with a start time once it is exiting. */
  lemma PhaseKeeps(e: Engine, after: Engine)
    requires Inv(e) && e.held.Some? && !e.log.GapOpen() && after.phase.Exiting() && e.phase.Rank() <= after.phase.Rank()
    requires after == e.(phase := after.phase, exitingSince := after.exitingSince, aggressiveSince := after.aggressiveSince,
                         exitStartPnl := after.exitStartPnl, log := after.log)
    requires LogOk(after.log) && LogGrows(e.log, after.log) && !after.log.GapOpen()
    requires after.exitingSince.Some? && (e.exitingSince.Some? ==> after.exitingSince == e.exitingSince)
    ensures Kept(e, after)
  {
    hide DeskOk, DeskGrows, RowsOk, Climbed, LogOk, LogGrows, OrderTerms, NotFilled, Registered;
    AdvancesReflexive(e);
  }

  lemma RepriceKeeps(e: Engine, p: Position, at: int, look: Look, transition: bool)
    requires Inv(e) && e.held == Some(p) && e.phase.Exiting() && !e.log.GapOpen()
    ensures Kept(e, Reprice(e, p, at, look, transition))
  {
    hide DeskOk, DeskGrows, RowsOk, Climbed, LogOk, LogGrows, OrderTerms, NotFilled, Registered, MakerPrice, EnsureVersion;
    var price := MakerPrice(p, look, e.phase);
    EnsureKeeps(e.desk, e.tick, e.processed, p, price, e.phase, at, transition);
    EnsureTerms(e.desk, p, price, e.phase, at, transition);
    LogGrowsReflexive(e.log);
    DeskAndLogKeep(e, EnsureVersion(e.desk, p, price, e.phase, at, transition), e.log);
  }

  lemma PlanKeeps(e: Engine, p: Position, at: int, look: Look)
    requires Inv(e) && e.held == Some(p) && !e.log.GapOpen() && e.log.Timely(at) && look.Priced()
    ensures Kept(e, Plan(e, p, at, look).engine) && Plan(e, p, at, look).answer.Ok?
  {
    hide DeskOk, DeskGrows, RowsOk, Climbed, LogOk, LogGrows, OrderTerms, NotFilled, Registered, MakerPrice, EnsureVersion, WorthHolding,
      Baseline, Reprice;
    LogGrowsReflexive(e.log);
    if e.phase.Holding? {
      if WorthHolding(e, p, at, look) {
        KeptReflexive(e);
      } else {
        AppendKeeps(e.log, NormalExitStarted, at, None);
        var exiting := e.(phase := ExitingNormal, exitingSince := Some(at), exitStartPnl := Baseline(p, look, Holding),
                          log := e.log.Append(NormalExitStarted, at, None));
        PhaseKeeps(e, exiting);
        RepriceKeeps(exiting, p, at, look, false);
        KeptTransitive(e, exiting, Reprice(exiting, p, at, look, false));
      }
    } else {
      var based := if e.exitStartPnl.None? then e.(exitStartPnl := Baseline(p, look, e.phase)) else e;
      PhaseKeeps(e, based);
      if e.phase.ExitingNormal? && at - e.exitingSince.value >= AGGRESSIVE_AFTER {
        AppendKeeps(e.log, AggressiveExitStarted, at, None);
        var pressing := based.(phase := ExitingAggressive,
                               aggressiveSince := if e.aggressiveSince.None? then Some(at) else e.aggressiveSince,
                               log := based.log.Append(AggressiveExitStarted, at, None));
        PhaseKeeps(e, pressing);
        RepriceKeeps(pressing, p, at, look, true);
        KeptTransitive(e, pressing, Reprice(pressing, p, at, look, true));
      } else {
        RepriceKeeps(based, p, at, look, false);
        KeptTransitive(e, based, Reprice(based, p, at, look, false));
      }
    }
  }

  lemma UnpricedKeeps(e: Engine, at: int, cancel: bool)
    requires Inv(e) && e.held.Some? && !e.log.GapOpen() && e.log.Timely(at)
    ensures var noted := e.(log := RecordUnavailable(e.log, at));
      Kept(e, noted) && Kept(e, noted.(desk := CancelVersion(e.desk, PaperEngine.UnwindUnavailable, at)))
  {
    hide DeskOk, DeskGrows, RowsOk, Climbed, LogOk, LogGrows, OrderTerms, NotFilled, Registered, RecordUnavailable;
    UnavailableKeeps(e.log, at);
    var noted := e.(log := RecordUnavailable(e.log, at));
    LogKeeps(e, noted.log);
    CancelHolds(noted, PaperEngine.UnwindUnavailable, at);
    KeptTransitive(e, noted, noted.(desk := CancelVersion(e.desk, PaperEngine.UnwindUnavailable, at)));
  }

  lemma PricedKeeps(e: Engine)
    requires Inv(e)
    ensures Kept(e, e.(log := e.log.(unavailable := false)))
    ensures e.log.(unavailable := false).GapOpen() == e.log.GapOpen()
  {
    LogKeeps(e, e.log.(unavailable := false));
  }

  lemma EvaluateKeeps(e: Engine, at: int, look: Look, next: Option<Cycle>, hardOnly: bool)
    requires Inv(e) && e.log.Timely(at)
    ensures Kept(e, Evaluate(e, at, look, next, hardOnly).engine)
  {
    hide Inv, Kept, StartGap, HardClose, NextCycle, Plan, Log.GapOpen, CancelVersion, RecordUnavailable, Position.BasisBroken;
    KeptReflexive(e);
    if e.held.Some? && !e.log.GapOpen() {
      StartGapKeeps(e, at);
      if look.healthy && !look.Priced() && !hardOnly {
        UnpricedKeeps(e, at, true);
      } else if look.healthy && look.Priced() {
        var p := e.held.value;
        var priced := e.(log := e.log.(unavailable := false));
        PricedKeeps(e);
        KeptInv(e, priced);
        if p.BasisBroken(look) {
          HardCloseKeeps(priced, p, at, look);
          KeptTransitive(e, priced, HardClose(priced, p, at, look));
        } else if !hardOnly {
          var cycled := NextCycle(priced, p, at, next);
          NextCycleKeeps(priced, p, at, next);
          KeptTransitive(e, priced, cycled.engine);
          if cycled.answer.Ok? {
            KeptInv(priced, cycled.engine);
            PlanKeeps(cycled.engine, p, at, look);
            KeptTransitive(e, cycled.engine, Plan(cycled.engine, p, at, look).engine);
          }
        }
      }
    }
  }

  lemma RecoverKeeps(e: Engine, at: int, look: Look, next: Option<Cycle>, updates: seq<Settlement>)
    requires Inv(e) && e.log.Timely(at)
    ensures Kept(e, Recover(e, at, look, next, updates).engine)
  {
    hide Inv, Kept, EndGap, ReconcileRows, Evaluate;
    KeptReflexive(e);
    var ended := EndGap(e, at);
    EndGapKeeps(e, at);
    if look.healthy && ended.answer.Ok? {
      KeptInv(e, ended.engine);
      var reconciled := ReconcileRows(ended.engine, updates);
      ReconcileAllKeep(ended.engine, updates);
      KeptTransitive(e, ended.engine, reconciled.engine);
      if reconciled.answer.Ok? {
        KeptInv(ended.engine, reconciled.engine);
        EvaluateKeeps(reconciled.engine, at, look, next, false);
        KeptTransitive(e, reconciled.engine, Evaluate(reconciled.engine, at, look, next, false).engine);
      }
    }
  }

  /** What a restart leaves before it looks at the books: the gap open, and the clock still ahead of the log. */
  lemma RestartGaps(e: Engine, lastKnown: int, at: int)
    requires Inv(e) && e.held.Some? && (e.log.GapOpen() || e.log.Timely(lastKnown))
    ensures var gapped := StartGap(e.(desk := CancelVersion(e.desk, PaperEngine.ProcessRestart, at)), lastKnown);
      && Kept(e, gapped) && Inv(gapped) && gapped.log.GapOpen() && gapped.held == e.held
      && (e.log.Timely(at) && (e.log.GapOpen() || lastKnown <= at) ==> gapped.log.Timely(at))
  {
    hide Inv, Kept, CancelVersion, OpenGap;
    var cancelled := e.(desk := CancelVersion(e.desk, PaperEngine.ProcessRestart, at));
    CancelHolds(e, PaperEngine.ProcessRestart, at);
    KeptInv(e, cancelled);
    StartGapKeeps(cancelled, lastKnown);
    KeptTransitive(e, cancelled, StartGap(cancelled, lastKnown));
    KeptInv(cancelled, StartGap(cancelled, lastKnown));
  }

  lemma RestartKeeps(e: Engine, lastKnown: int, at: int, look: Look, next: Option<Cycle>, updates: seq<Settlement>)
    requires Inv(e) && RestartTimely(e.log, lastKnown, at, look.healthy)
    ensures Kept(e, Restart(e, lastKnown, at, look, next, updates).engine)
  {
    hide Inv, Kept, StartGap, CancelVersion, Recover;
    KeptReflexive(e);
    if e.held.Some? {
      RestartGaps(e, lastKnown, at);
      if look.healthy {
        var gapped := StartGap(e.(desk := CancelVersion(e.desk, PaperEngine.ProcessRestart, at)), lastKnown);
        RecoverKeeps(gapped, at, look, next, updates);
        KeptTransitive(e, gapped, Recover(gapped, at, look, next, updates).engine);
      }
    }
  }

  // ----- Exit trades -----

  lemma SeenTradeKeeps(e: Engine, key: string)
    requires Inv(e)
    ensures Kept(e, e.(processed := e.processed + {key}))
  {
    SeenKeeps(e.desk, e.tick, e.processed, key);
    AdvancesReflexive(e);
  }

  lemma CountedKeeps(e: Engine, trade: Trade)
    requires Inv(e) && e.held.Some? && e.desk.Active().Some? && trade.key !in e.processed
    requires Eligible(e.desk.order.value, e.desk.Active().value.limit, e.tick, trade)
    requires e.desk.Active().value.cumulative + trade.quantity < e.desk.order.value.quantity
    ensures var v := e.desk.Active().value;
      Kept(e, e.(processed := e.processed + {trade.key},
                 desk := Count(e.desk, trade).WithLast(v.(cumulative := v.cumulative + trade.quantity))))
  {
    hide DeskOk, DeskGrows, RowsOk, Climbed, LogOk, LogGrows, Registered, Eligible;
    var seen := e.(processed := e.processed + {trade.key});
    SeenTradeKeeps(e, trade.key);
    AccumulateKeeps(e.desk, e.tick, e.processed, trade);
    var v := e.desk.Active().value;
    var desk := Count(e.desk, trade).WithLast(v.(cumulative := v.cumulative + trade.quantity));
    LogGrowsReflexive(e.log);
    DeskAndLogKeep(seen, desk, e.log);
    KeptTransitive(e, seen, seen.(desk := desk));
  }

  /** A trade that cannot close because a leg is unhealthy or unprovable is dropped with its version. */
  lemma SuspendedKeeps(e: Engine, trade: Trade, at: int)
    requires Inv(e) && e.held.Some? && e.desk.Active().Some? && e.log.Timely(at)
    ensures var counted := e.(processed := e.processed + {trade.key}, desk := Count(e.desk, trade));
      Kept(e, StartGap(counted, at))
      && Kept(e, counted.(log := RecordUnavailable(e.log, at), desk := CancelVersion(counted.desk, PaperEngine.UnwindUnavailable, at)))
  {
    hide DeskOk, DeskGrows, RowsOk, Climbed, LogOk, LogGrows, OrderTerms, NotFilled, Registered, CancelVersion, Count, RecordUnavailable,
      OpenGap;
    var seen := e.(processed := e.processed + {trade.key});
    SeenTradeKeeps(e, trade.key);
    SuspendKeeps(e.desk, e.tick, e.processed, trade, DataGap, at);
    SuspendKeeps(e.desk, e.tick, e.processed, trade, PaperEngine.UnwindUnavailable, at);
    StartGapKeeps(seen, at);
    UnpricedKeeps(seen, at, true);
    KeptTransitive(e, seen, StartGap(seen, at));
    KeptTransitive(e, seen, seen.(log := RecordUnavailable(e.log, at), desk := CancelVersion(e.desk, PaperEngine.UnwindUnavailable, at)));
  }

  lemma MakerCloseKeeps(e: Engine, p: Position, trade: Trade, at: int, proof: Positive)
    requires Inv(e) && e.held == Some(p) && e.desk.Active().Some? && e.log.Timely(at) && trade.key !in e.processed
    requires Eligible(e.desk.order.value, e.desk.Active().value.limit, e.tick, trade)
    requires e.desk.Active().value.cumulative + trade.quantity >= e.desk.order.value.quantity
    ensures var counted := e.(processed := e.processed + {trade.key}, desk := Count(e.desk, trade));
      trade.exchangeAt.Some? && counted.desk.Active() == e.desk.Active() && Kept(e, MakerClose(counted, p, trade, at, proof))
  {
    hide DeskOk, DeskGrows, RowsOk, Climbed, LogOk, LogGrows, Registered, Recomputed, Position.PairPnl, Position.FeeOf, Close, Eligible;
    Quantified(e.desk.order.value, e.desk.Active().value.limit, e.tick, trade);
    FillKeeps(e.desk, e.tick, e.processed, trade, at);
    var counted := e.(processed := e.processed + {trade.key}, desk := Count(e.desk, trade));
    var v := e.desk.Active().value;
    var maker := ExitFill(v.limit, p.FeeOf(p.Lighter(), true, v.limit), trade.exchangeAt.value, trade.receivedAt);
    var taker := ExitFill(proof, p.FeeOf(!p.Lighter(), false, proof), at, at);
    var reason := if v.mode.ExitingAggressive? then AggressiveMaker else NormalMaker;
    var desk := FillVersion(counted.desk, at);
    assert e.(desk := desk, processed := counted.processed) == counted.(desk := desk);
    var risex, hedge := if p.Lighter() then maker else taker, if p.Lighter() then taker else maker;
    CloseShape(counted.(desk := desk), p, risex, hedge, reason, at);
    CloseKeeps(e, desk, counted.processed, p, risex, hedge, reason, at);
  }

  lemma ProcessExitTradeKeeps(e: Engine, trade: Trade, observed: nat, at: int, healthy: bool, proof: Option<Positive>)
    requires Inv(e) && e.log.Timely(at)
    ensures Kept(e, ProcessExitTrade(e, trade, observed, at, healthy, proof).engine)
  {
    hide Inv, Kept, Eligible, StartGap, MakerClose, CancelVersion, RecordUnavailable;
    KeptReflexive(e);
    var active := e.desk.Active();
    if e.held.Some? && active.Some? && trade.key !in e.processed {
      SeenTradeKeeps(e, trade.key);
      if Eligible(e.desk.order.value, active.value.limit, e.tick, trade) {
        Quantified(e.desk.order.value, active.value.limit, e.tick, trade);
        SuspendedKeeps(e, trade, at);
        if active.value.cumulative + trade.quantity < e.desk.order.value.quantity {
          CountedKeeps(e, trade);
        } else if proof.Some? {
          MakerCloseKeeps(e, e.held.value, trade, at, proof.value);
        }
      }
    }
  }

  // ----- Funding after the fact -----

  lemma RecomputeKeeps(e: Engine)
    requires Inv(e)
    ensures Kept(e, Recompute(e))
  {
    hide DeskOk, DeskGrows, RowsOk, Climbed, LogOk, LogGrows, OrderTerms, NotFilled, Registered, Recognized, Within;
    AdvancesReflexive(e);
  }

  lemma SettleKeeps(e: Engine, update: Settlement)
    requires Inv(e)
    ensures Kept(e, ReconcileSettlement(e, update).engine)
  {
    hide Inv, Kept, ReconcileRow, Recompute;
    var reconciled := ReconcileRow(e, update);
    ReconcileKeeps(e, update);
    KeptInv(e, reconciled.engine);
    RecomputeKeeps(reconciled.engine);
    KeptTransitive(e, reconciled.engine, Recompute(reconciled.engine));
  }

  lemma MarkKeeps(e: Engine, update: Settlement)
    requires Inv(e)
    ensures Kept(e, MarkUnresolved(e, update))
  {
    if MarksUnresolved(e.rows, update) {
      var at := RowAt(e.rows, update.key).value;
      forall r <- e.rows | r.key == update.key ensures Reaches(r.status, update.status) {
        var i :| 0 <= i < |e.rows| && e.rows[i] == r;
        RowAtIs(e.rows, i);
      }
      UpsertClimbs(e.rows, update);
      RowsKeep(e, Upsert(e.rows, update));
    } else {
      KeptReflexive(e);
    }
  }

  // ----- Whole runs -----

  lemma StepKeeps(e: Engine, op: Op)
    requires Inv(e) && op.Timely(e.log)
    ensures Kept(e, Step(e, op))
  {
    hide Inv, Kept, Evaluate, Recover, Restart, ProcessExitTrade, ReconcileSettlement, MarkUnresolved, StartGap;
    match op
    case EvaluateAt(at, look, next, hardOnly) => EvaluateKeeps(e, at, look, next, hardOnly);
    case StartGapAt(at) => if e.held.Some? { StartGapKeeps(e, at); } else { KeptReflexive(e); }
    case RecoverAt(at, look, next, updates) => RecoverKeeps(e, at, look, next, updates);
    case RestartAt(lastKnown, at, look, next, updates) => RestartKeeps(e, lastKnown, at, look, next, updates);
    case ExitTrade(trade, observed, at, healthy, proof) => ProcessExitTradeKeeps(e, trade, observed, at, healthy, proof);
    case Settle(update) => SettleKeeps(e, update);
    case Mark(update) => MarkKeeps(e, update);
  }

  lemma StartHolds(phase: Phase, p: Position, target: Option<Cycle>, planned: Option<Cycle>, processed: set<string>)
    requires WellStarted(phase, p, target, planned)
    ensures Inv(Start(phase, p, target, planned, processed))
  {
    var evidence := if target.Some? then target else planned;
    if evidence.Some? {
      StartRows(evidence.value, p.openedAt);
    }
    hide RowsOk, Registered, Upsert;
  }

  /** The two rows of the first cycle, on different venues. */
  lemma StartRows(cycle: Cycle, openedAt: int)
    requires cycle.risex.key.venue != cycle.hedge.key.venue
    ensures var rows := Upsert([RowFor(cycle.risex, openedAt)], RowFor(cycle.hedge, openedAt));
      RowsOk(rows) && Registered(rows, cycle)
  {
    var first, second := RowFor(cycle.risex, openedAt), RowFor(cycle.hedge, openedAt);
    UpsertClimbs([first], second);
    assert first in [first];
    KeysStay([first], Upsert([first], second), first.key);
  }
}

/**
 What a run of the paper engine promises, from full entry to close and after it.
 */
module PaperTheorems {
  import opened Wrappers
  import opened Funding
  import opened PaperMarket
  import opened PaperEngine
  import opened PaperDesk
  import opened PaperInvariant
  import opened PaperSteps

  /** Every state of every run is sound. */
  lemma {:induction false} RunHolds(trace: seq<Engine>, ops: seq<Op>, i: nat)
    requires IsRun(trace, ops) && i < |trace|
    ensures Inv(trace[i])
  {
    hide Inv, Step, Start, Kept;
    if i == 0 {
      var phase: Phase, p: Position, target: Option<Cycle>, planned: Option<Cycle>, processed: set<string> :|
        WellStarted(phase, p, target, planned) && trace[0] == Start(phase, p, target, planned, processed);
      StartHolds(phase, p, target, planned, processed);
    } else {
      RunHolds(trace, ops, i - 1);
      StepKeeps(trace[i - 1], ops[i - 1]);
      KeptInv(trace[i - 1], trace[i]);
    }
  }

  /** Nothing a run does is undone: phases climb HOLDING, EXITING_NORMAL, EXITING_AGGRESSIVE, FLAT, closed versions and
      ended gaps are frozen, degraded data stays degraded, rows only climb and a close stands. */
  lemma {:induction false} RunAdvances(trace: seq<Engine>, ops: seq<Op>, i: nat, j: nat)
    requires IsRun(trace, ops) && i <= j < |trace|
    ensures Inv(trace[j]) && Advances(trace[i], trace[j])
  {
    hide Inv, Step, Advances;
    RunHolds(trace, ops, j);
    if i == j {
      AdvancesReflexive(trace[i]);
    } else {
      RunAdvances(trace, ops, i, j - 1);
      StepKeeps(trace[j - 1], ops[j - 1]);
      AdvancesTransitive(trace[i], trace[j - 1], trace[j]);
    }
  }

  /** An exit trade handed to the engine, observed for this version. */
  ghost predicate Offered(ops: seq<Op>, number: nat, t: Trade) {
    exists op <- ops :: op.ExitTrade? && op.observed == number && op.trade == t
  }

  ghost predicate AllOffered(desk: Desk, ops: seq<Op>) {
    forall number <- desk.qualifying.Keys, t <- desk.qualifying[number] :: Offered(ops, number, t)
  }

  /** Counted trades are dropped a whole version at a time, and never added. */
  ghost predicate Drops(before: Desk, after: Desk) {
    after.qualifying.Keys <= before.qualifying.Keys
    && forall number <- after.qualifying.Keys :: after.qualifying[number] == before.qualifying[number]
  }

  lemma CancelDrops(desk: Desk, reason: VersionReason, at: int)
    ensures Drops(desk, CancelVersion(desk, reason, at))
  {
  }

  lemma EnsureDrops(desk: Desk, p: Position, price: Option<Positive>, mode: Phase, at: int, transition: bool)
    ensures Drops(desk, EnsureVersion(desk, p, price, mode, at, transition))
  {
  }

  lemma PlanDrops(e: Engine, p: Position, at: int, look: Look)
    requires look.Priced()
    ensures Drops(e.desk, Plan(e, p, at, look).engine.desk)
  {
    hide EnsureVersion, MakerPrice, WorthHolding, Baseline;
    var desk := Plan(e, p, at, look).engine.desk;
    forall price: Option<Positive>, mode: Phase, transition: bool
      ensures Drops(e.desk, EnsureVersion(e.desk, p, price, mode, at, transition))
    {
      EnsureDrops(e.desk, p, price, mode, at, transition);
    }
    hide Drops;
    assert desk == e.desk || exists price: Option<Positive>, mode: Phase, transition: bool ::
        desk == EnsureVersion(e.desk, p, price, mode, at, transition);
  }

  lemma EvaluateDrops(e: Engine, at: int, look: Look, next: Option<Cycle>, hardOnly: bool)
    ensures Drops(e.desk, Evaluate(e, at, look, next, hardOnly).engine.desk)
  {
    CancelDrops(e.desk, DataGap, at);
    CancelDrops(e.desk, PaperEngine.UnwindUnavailable, at);
    CancelDrops(e.desk, PaperEngine.HardBasis, at);
    hide Plan, CancelVersion, Register, CycleResolved, Recomputed, Position.BasisBroken, Position.FeeOf, RecordUnavailable, OpenGap, SkipFuture;
    if e.held.Some? && look.Priced() {
      var priced := e.(log := e.log.(unavailable := false));
      PlanDrops(NextCycle(priced, e.held.value, at, next).engine, e.held.value, at, look);
    }
    hide Drops;
    assert Drops(e.desk, e.desk) by { DropsNothing(e.desk); }
  }

  lemma DropsNothing(desk: Desk)
    ensures Drops(desk, desk)
  {
  }

  lemma {:induction false} ReconcilingKeepsDesk(e: Engine, updates: seq<Settlement>)
    ensures ReconcileRows(e, updates).engine.desk == e.desk
    decreases updates
  {
    hide ApplyUpdate;
    if updates != [] && ReconcileRow(e, updates[0]).answer.Ok? {
      ReconcilingKeepsDesk(ReconcileRow(e, updates[0]).engine, updates[1..]);
    }
  }

  lemma RecoverDrops(e: Engine, at: int, look: Look, next: Option<Cycle>, updates: seq<Settlement>)
    ensures Drops(e.desk, Recover(e, at, look, next, updates).engine.desk)
  {
    hide Evaluate, CloseGap, ReconcileRows;
    var ended := EndGap(e, at).engine;
    ReconcilingKeepsDesk(ended, updates);
    EvaluateDrops(ReconcileRows(ended, updates).engine, at, look, next, false);
  }

  lemma RestartDrops(e: Engine, lastKnown: int, at: int, look: Look, next: Option<Cycle>, updates: seq<Settlement>)
    ensures Drops(e.desk, Restart(e, lastKnown, at, look, next, updates).engine.desk)
  {
    hide Recover, OpenGap;
    RecoverDrops(StartGap(e.(desk := CancelVersion(e.desk, PaperEngine.ProcessRestart, at)), lastKnown), at, look, next, updates);
  }

  /** The one operation that counts a trade counts the trade it was given, for the version it was observed for. */
  lemma ExitTradeOffers(e: Engine, trade: Trade, observed: nat, at: int, healthy: bool, proof: Option<Positive>)
    ensures var after := ProcessExitTrade(e, trade, observed, at, healthy, proof).engine.desk;
      forall number <- after.qualifying.Keys, t <- after.qualifying[number] ::
        || (number in e.desk.qualifying && t in e.desk.qualifying[number])
        || (number == observed && t == trade)
  {
    hide Eligible, OpenGap, RecordUnavailable, Recomputed, SkipFuture, Position.FeeOf, Position.PairPnl;
  }

  lemma StepOffers(e: Engine, op: Op, ops: seq<Op>)
    requires AllOffered(e.desk, ops)
    ensures AllOffered(Step(e, op).desk, ops + [op])
  {
    hide Evaluate, Recover, Restart, ProcessExitTrade, ApplyUpdate, Recomputed, MarksUnresolved, Upsert, OpenGap;
    match op {
      case EvaluateAt(at, look, next, hardOnly) => EvaluateDrops(e, at, look, next, hardOnly);
      case RecoverAt(at, look, next, updates) => RecoverDrops(e, at, look, next, updates);
      case RestartAt(lastKnown, at, look, next, updates) => RestartDrops(e, lastKnown, at, look, next, updates);
      case ExitTrade(trade, observed, at, healthy, proof) => ExitTradeOffers(e, trade, observed, at, healthy, proof);
      case _ =>
    }
    var after := Step(e, op).desk;
    assert forall number <- after.qualifying.Keys, t <- after.qualifying[number] ::
        || (number in e.desk.qualifying && t in e.desk.qualifying[number])
        || (op.ExitTrade? && number == op.observed && t == op.trade);
    hide Step, Drops;
    forall number <- after.qualifying.Keys, t <- after.qualifying[number] ensures Offered(ops + [op], number, t) {
      if number in e.desk.qualifying && t in e.desk.qualifying[number] {
        var earlier :| earlier in ops && earlier.ExitTrade? && earlier.observed == number && earlier.trade == t;
        assert earlier in ops + [op];
      } else {
        assert op in ops + [op];
      }
    }
  }

  /** Every trade the engine still counts is one the run handed it for that version. */
  lemma {:induction false} RunOffers(trace: seq<Engine>, ops: seq<Op>, i: nat)
    requires IsRun(trace, ops) && i < |trace|
    ensures AllOffered(trace[i].desk, ops[..i])
  {
    hide Step, AllOffered;
    if i == 0 {
      hide WellStarted;
      assert AllOffered(trace[0].desk, []) by { NothingCounted(trace[0].desk); }
    } else {
      RunOffers(trace, ops, i - 1);
      StepOffers(trace[i - 1], ops[i - 1], ops[..i - 1]);
      assert ops[..i] == ops[..i - 1] + [ops[i - 1]];
    }
  }

  lemma NothingCounted(desk: Desk)
    requires desk.qualifying == map[]
    ensures AllOffered(desk, [])
  {
  }

  /** A maker close is backed: distinct trades that the run handed in for that one version, each at least one tick through
      its price, that together reach the order quantity while all but the last fall short of it; the maker leg leaves at
      that price. */
  ghost predicate MakerBacked(e: Engine, closed: ClosedTrade, ops: seq<Op>) {
    exists v: Version, trades: seq<Trade> ::
      && e.desk.Last() == Some(v) && v.status.Filled? && v.number == |e.desk.order.value.versions|
      && v.number in e.desk.qualifying && trades == e.desk.qualifying[v.number]
      && (forall t <- trades :: Offered(ops, v.number, t))
      && Backing(trades, e.desk.order.value, v.limit, e.tick, e.processed)
      && JustReaches(trades, e.desk.order.value.quantity) && v.cumulative == e.desk.order.value.quantity
      && (if e.desk.order.value.venue.Risex? then closed.risex else closed.hedge).price == v.limit
      && closed.reason == (if v.mode.ExitingAggressive? then AggressiveMaker else NormalMaker)
  }

  lemma MakerClosesAreBacked(trace: seq<Engine>, ops: seq<Op>, i: nat)
    requires IsRun(trace, ops) && i < |trace|
    ensures trace[i].closed.Some? && !trace[i].closed.value.reason.HardBasisClose? ==>
      MakerBacked(trace[i], trace[i].closed.value, ops[..i])
  {
    hide Step, Start, IsRun, Backing, JustReaches, LogOk, RowsOk, Registered, Offered;
    RunHolds(trace, ops, i);
    RunOffers(trace, ops, i);
    var e := trace[i];
    if e.closed.Some? && !e.closed.value.reason.HardBasisClose? {
      var v := e.desk.Last().value;
      assert v.number in e.desk.qualifying;
    }
  }

  /** In every state of every run, an open version is the last one and holds exactly the trades counted for it. */
  lemma OpenVersionIsLast(trace: seq<Engine>, ops: seq<Op>, i: nat, k: nat)
    requires IsRun(trace, ops) && i < |trace|
    requires trace[i].desk.order.Some? && k < |trace[i].desk.order.value.versions|
    ensures var order := trace[i].desk.order.value; var v := order.versions[k];
      && v.number == k + 1
      && (v.status.Open? || v.status.Filled? ==> k == |order.versions| - 1)
      && (v.status.Open? ==> v.cumulative == Total(trace[i].desk.Counted(v.number)) < order.quantity && !trace[i].log.GapOpen())
  {
    hide Step, Start, IsRun, Backing, JustReaches, LogOk, RowsOk, Registered;
    RunHolds(trace, ops, i);
  }

  /** While a gap is open nothing trades and nothing closes; only a recovery or a restart ends it. */
  lemma GapFreezes(e: Engine, op: Op)
    requires Inv(e) && e.log.GapOpen() && !op.RecoverAt? && !op.RestartAt?
    ensures Step(e, op) == e.(rows := Step(e, op).rows) && e.closed.None? && e.desk.Active().None?
  {
    hide DeskOk, LogOk, RowsOk, Registered, ApplyUpdate, Upsert, MarksUnresolved;
  }

  /** After the close only funding moves: rows, and the figures computed from them. */
  lemma FlatIsFinal(e: Engine, op: Op)
    requires Inv(e) && e.phase.Flat?
    ensures Step(e, op) == e.(rows := Step(e, op).rows, closed := Step(e, op).closed)
    ensures e.closed.Some? && Step(e, op).closed.Some? && SameClose(e.closed.value, Step(e, op).closed.value)
  {
    hide DeskOk, LogOk, RowsOk, Registered, ApplyUpdate, Upsert, MarksUnresolved, Recognized, Within, Plan, HardClose, NextCycle, Tally,
      CancelVersion, CloseGap, OpenGap, ReconcileRows, Eligible, ClosedTerms;
  }

  // ----- Holding or leaving -----

  /** At known prices the engine keeps holding exactly when leaving has a known price and the funding still to come is
      known and positive: what leaving would net does not matter. */
  lemma HoldsForPositiveFunding(e: Engine, p: Position, at: int, look: Look)
    requires e.phase.Holding? && look.Priced()
    ensures Plan(e, p, at, look).engine.phase.Holding? <==>
      && MakerPrice(p, look, Holding).Some? && Recognized(Within(e.rows, None, at)).Some?
      && RemainingFunding(e.cycle, at).Some? && RemainingFunding(e.cycle, at).value > 0.0
  {
    hide MakerPrice, Recognized, Within, RemainingFunding, EnsureVersion, Position.MakerPairPnl, Position.FeeOf;
  }

  // ----- Accounting -----

  /** The closed figures are those of the rows as they are. */
  ghost predicate Settled(e: Engine) {
    e.closed.Some? ==> e.closed.value == Recomputed(e.closed.value, e.rows)
  }

  lemma RecomputedAgain(closed: ClosedTrade, rows: seq<Settlement>)
    ensures Recomputed(Recomputed(closed, rows), rows) == Recomputed(closed, rows)
  {
  }

  lemma CloseSettles(e: Engine, p: Position, risex: ExitFill, hedge: ExitFill, reason: CloseReason, at: int)
    ensures Settled(Close(e, p, risex, hedge, reason, at))
  {
    CloseShape(e, p, risex, hedge, reason, at);
  }

  lemma EvaluateSettles(e: Engine, at: int, look: Look, next: Option<Cycle>, hardOnly: bool)
    requires e.closed.None?
    ensures Settled(Evaluate(e, at, look, next, hardOnly).engine)
  {
    hide Close, CancelVersion, EnsureVersion, MakerPrice, WorthHolding, Baseline, Register, CycleResolved, Recomputed, Position.BasisBroken,
      Position.FeeOf, RecordUnavailable, OpenGap;
    if e.held.Some? && look.Priced() && look.risexProof.Some? && look.hedgeProof.Some? {
      var p := e.held.value;
      var risex := ExitFill(look.risexProof.value, p.FeeOf(true, false, look.risexProof.value), at, at);
      var hedge := ExitFill(look.hedgeProof.value, p.FeeOf(false, false, look.hedgeProof.value), at, at);
      var priced := e.(log := e.log.(unavailable := false));
      CloseSettles(priced.(desk := CancelVersion(priced.desk, PaperEngine.HardBasis, at)), p, risex, hedge, HardBasisClose, at);
    }
  }

  lemma RecoverSettles(e: Engine, at: int, look: Look, next: Option<Cycle>, updates: seq<Settlement>)
    requires Inv(e) && e.log.Timely(at) && e.closed.None?
    ensures Settled(Recover(e, at, look, next, updates).engine)
  {
    hide Inv, Evaluate, CloseGap, ReconcileRows, Recomputed;
    EndGapKeeps(e, at);
    var ended := EndGap(e, at).engine;
    KeptInv(e, ended);
    ReconcileAllKeep(ended, updates);
    EvaluateSettles(ReconcileRows(ended, updates).engine, at, look, next, false);
  }

  lemma RestartSettles(e: Engine, lastKnown: int, at: int, look: Look, next: Option<Cycle>, updates: seq<Settlement>)
    requires Inv(e) && RestartTimely(e.log, lastKnown, at, look.healthy) && e.closed.None?
    ensures Settled(Restart(e, lastKnown, at, look, next, updates).engine)
  {
    hide Inv, Recover, CancelVersion, OpenGap, Recomputed;
    if e.held.Some? {
      RestartGaps(e, lastKnown, at);
      if look.healthy {
        RecoverSettles(StartGap(e.(desk := CancelVersion(e.desk, PaperEngine.ProcessRestart, at)), lastKnown), at, look, next, updates);
      }
    }
  }

  lemma ExitTradeSettles(e: Engine, trade: Trade, observed: nat, at: int, healthy: bool, proof: Option<Positive>)
    requires e.closed.None?
    ensures Settled(ProcessExitTrade(e, trade, observed, at, healthy, proof).engine)
  {
    hide Close, CancelVersion, Recomputed, Position.FeeOf, RecordUnavailable, OpenGap, FillVersion;
    var active := e.desk.Active();
    if e.held.Some? && active.Some? && trade.exchangeAt.Some? && proof.Some? {
      var p, v := e.held.value, active.value;
      var counted := e.(processed := e.processed + {trade.key},
                        desk := e.desk.(qualifying := e.desk.qualifying[v.number := e.desk.Counted(v.number) + [trade]]));
      var filled := counted.(desk := FillVersion(counted.desk, at));
      var maker := ExitFill(v.limit, p.FeeOf(p.Lighter(), true, v.limit), trade.exchangeAt.value, trade.receivedAt);
      var taker := ExitFill(proof.value, p.FeeOf(!p.Lighter(), false, proof.value), at, at);
      var reason := if v.mode.ExitingAggressive? then AggressiveMaker else NormalMaker;
      CloseSettles(filled, p, maker, taker, reason, at);
      CloseSettles(filled, p, taker, maker, reason, at);
    }
  }

  /** Every operation but the history mark leaves the closed figures equal to what the rows say. */
  lemma StepSettles(e: Engine, op: Op)
    requires Inv(e) && op.Timely(e.log) && Settled(e) && !op.Mark?
    ensures Settled(Step(e, op))
  {
    hide DeskOk, LogOk, RowsOk, Registered, Evaluate, Recover, Restart, ProcessExitTrade, Recomputed, ApplyUpdate, CancelVersion, OpenGap;
    match op
    case EvaluateAt(at, look, next, hardOnly) =>
      if e.closed.None? { EvaluateSettles(e, at, look, next, hardOnly); } else { FlatIsFinalFor(e, op); }
    case RecoverAt(at, look, next, updates) =>
      if e.closed.None? { RecoverSettles(e, at, look, next, updates); } else { FlatIsFinalFor(e, op); }
    case RestartAt(lastKnown, at, look, next, updates) =>
      if e.closed.None? { RestartSettles(e, lastKnown, at, look, next, updates); } else { FlatIsFinalFor(e, op); }
    case ExitTrade(trade, observed, at, healthy, proof) =>
      if e.closed.None? { ExitTradeSettles(e, trade, observed, at, healthy, proof); } else { FlatIsFinalFor(e, op); }
    case Settle(update) =>
      var reconciled := ReconcileRow(e, update);
      if reconciled.answer.Ok? && e.closed.Some? {
        RecomputedAgain(e.closed.value, reconciled.engine.rows);
      }
    case StartGapAt(_) =>
  }

  /** Without a settlement or a mark, a flat engine does not change at all. */
  lemma FlatIsFinalFor(e: Engine, op: Op)
    requires Inv(e) && e.closed.Some? && !op.Settle? && !op.Mark?
    ensures Step(e, op) == e
  {
    hide DeskOk, LogOk, RowsOk, Registered;
  }

  /** A run in which the history is not marked after the close. */
  ghost predicate UnmarkedAfterClose(trace: seq<Engine>, ops: seq<Op>)
    requires |trace| == |ops| + 1
  {
    forall i | 0 <= i < |ops| :: ops[i].Mark? ==> trace[i].closed.None?
  }

  lemma {:induction false} RunSettles(trace: seq<Engine>, ops: seq<Op>, i: nat)
    requires IsRun(trace, ops) && i < |trace| && UnmarkedAfterClose(trace, ops)
    ensures Settled(trace[i])
  {
    hide Inv, Step, Recomputed;
    if i > 0 {
      RunSettles(trace, ops, i - 1);
      RunHolds(trace, ops, i - 1);
      if ops[i - 1].Mark? {
        MarkTouchesRows(trace[i - 1], ops[i - 1].update);
      } else {
        StepSettles(trace[i - 1], ops[i - 1]);
      }
    }
  }

  lemma MarkTouchesRows(e: Engine, update: Settlement)
    ensures Step(e, Mark(update)) == e.(rows := Step(e, Mark(update)).rows)
  {
  }

  /** The closed net is recognised funding plus pair profit less fees, whenever all funding is known; an applied-rate net,
      where there is one, is the same amount. */
  lemma ClosedNetBalances(trace: seq<Engine>, ops: seq<Op>, i: nat)
    requires IsRun(trace, ops) && i < |trace| && UnmarkedAfterClose(trace, ops) && trace[i].closed.Some?
    ensures var c := trace[i].closed.value; var known := Recognized(trace[i].rows);
      && (c.net.Some? <==> known.Some?) && (known.Some? ==> c.net.value == known.value + c.pairPnl - c.fees)
      && (c.appliedNet.Some? ==> c.appliedNet == c.net && AppliedRateComplete(trace[i].rows))
      && (c.primaryValid ==> c.net.Some? && !c.degraded && trace[i].rows != [])
  {
    hide Step, IsRun, Recognized, Inv;
    RunSettles(trace, ops, i);
    RunHolds(trace, ops, i);
    var c := trace[i].closed.value;
    if c.primaryValid {
      CompleteIsKnown(trace[i]);
    }
  }

  lemma CompleteIsKnown(e: Engine)
    requires Inv(e) && SimulatedComplete(e.rows)
    ensures Recognized(e.rows).Some?
  {
    if Recognized(e.rows).None? {
      TotalUnknown(e.rows);
    }
  }

  /** The step that closes a position fixes pair profit and fees from its entry and exit legs for ever. */
  lemma CloseFigures(e: Engine, at: int, look: Look, next: Option<Cycle>, hardOnly: bool)
    requires e.held.Some? && e.closed.None?
    ensures var after := Evaluate(e, at, look, next, hardOnly).engine; var p := e.held.value;
      after.closed.Some? ==>
        && after.closed.value.reason == HardBasisClose && look.Priced() && p.BasisBroken(look)
        && after.closed.value.risex.price == look.risexProof.value && after.closed.value.hedge.price == look.hedgeProof.value
        && after.closed.value.pairPnl == p.PairPnl(look.risexProof.value, look.hedgeProof.value)
        && after.closed.value.fees
           == p.entryFees + p.FeeOf(false, false, look.hedgeProof.value) + p.FeeOf(true, false, look.risexProof.value)
  {
    hide CancelVersion, EnsureVersion, MakerPrice, WorthHolding, Baseline, Register, CycleResolved, Recognized, Within, Position.BasisBroken,
      Position.FeeOf, Position.PairPnl, RecordUnavailable, OpenGap, SkipFuture;
  }

  /** A trade closes only as the last of the trades counted for the observed open version: the maker leg leaves at its
      price and maker fee, the taker leg at the proven price. */
  lemma TradeCloseFigures(e: Engine, trade: Trade, observed: nat, at: int, healthy: bool, proof: Option<Positive>)
    requires e.held.Some? && e.closed.None?
    ensures var after := ProcessExitTrade(e, trade, observed, at, healthy, proof).engine; var p := e.held.value;
      var active := e.desk.Active();
      after.closed.Some? ==>
        var c := after.closed.value; var maker := if p.Lighter() then c.risex else c.hedge; var taker := if p.Lighter() then c.hedge else c.risex;
        && active.Some? && observed == active.value.number && trade.key !in e.processed && healthy && proof.Some?
        && active.value.cumulative + trade.quantity >= e.desk.order.value.quantity
        && maker.price == active.value.limit && maker.fee == p.FeeOf(p.Lighter(), true, active.value.limit)
        && taker.price == proof.value && taker.fee == p.FeeOf(!p.Lighter(), false, proof.value)
        && c.pairPnl == p.PairPnl(c.risex.price, c.hedge.price) && c.fees == p.entryFees + maker.fee + taker.fee
  {
    hide CancelVersion, Recognized, Within, Position.FeeOf, Position.PairPnl, RecordUnavailable, OpenGap, SkipFuture, Eligible;
  }

  lemma EvaluatePresses(e: Engine, at: int, look: Look, next: Option<Cycle>, hardOnly: bool)
    ensures var after := Evaluate(e, at, look, next, hardOnly).engine;
      && (e.phase.Holding? ==> !after.phase.ExitingAggressive?)
      && (e.phase.ExitingNormal? && after.phase.ExitingAggressive? ==>
            e.exitingSince.Some? && at - e.exitingSince.value >= AGGRESSIVE_AFTER)
  {
    hide CancelVersion, EnsureVersion, MakerPrice, WorthHolding, Baseline, Register, CycleResolved, Recomputed, Position.BasisBroken,
      Position.FeeOf, Position.PairPnl, RecordUnavailable, OpenGap, SkipFuture;
  }

  lemma RecoverPresses(e: Engine, at: int, look: Look, next: Option<Cycle>, updates: seq<Settlement>)
    requires Inv(e) && e.log.Timely(at)
    ensures var after := Recover(e, at, look, next, updates).engine;
      && (e.phase.Holding? ==> !after.phase.ExitingAggressive?)
      && (e.phase.ExitingNormal? && after.phase.ExitingAggressive? ==>
            e.exitingSince.Some? && at - e.exitingSince.value >= AGGRESSIVE_AFTER)
  {
    hide Inv, Evaluate, CloseGap, ReconcileRows;
    EndGapKeeps(e, at);
    var ended := EndGap(e, at).engine;
    KeptInv(e, ended);
    ReconcileAllKeep(ended, updates);
    EvaluatePresses(ReconcileRows(ended, updates).engine, at, look, next, false);
  }

  /** No step skips the patient exit, and the aggressive one starts only after ten seconds of it. */
  lemma PressesAfterTenSeconds(e: Engine, op: Op)
    requires Inv(e) && op.Timely(e.log)
    ensures e.phase.Holding? ==> !Step(e, op).phase.ExitingAggressive?
    ensures e.phase.ExitingNormal? && Step(e, op).phase.ExitingAggressive? ==>
      (op.EvaluateAt? || op.RecoverAt? || op.RestartAt?) && op.at - e.exitingSince.value >= AGGRESSIVE_AFTER
  {
    hide DeskOk, LogOk, RowsOk, Registered, Evaluate, Recover, Recomputed, ApplyUpdate, CancelVersion, OpenGap, Upsert, MarksUnresolved,
      Position.FeeOf, Position.PairPnl, SkipFuture, RecordUnavailable, Eligible;
    match op
    case EvaluateAt(at, look, next, hardOnly) => EvaluatePresses(e, at, look, next, hardOnly);
    case RecoverAt(at, look, next, updates) => RecoverPresses(e, at, look, next, updates);
    case RestartAt(lastKnown, at, look, next, updates) =>
      if e.held.Some? {
        RestartGaps(e, lastKnown, at);
        if look.healthy {
          RecoverPresses(StartGap(e.(desk := CancelVersion(e.desk, PaperEngine.ProcessRestart, at)), lastKnown), at, look, next, updates);
        }
      }
    case _ =>
  }

  // ----- The history mark -----

  lemma {:induction false} WindowFollows(rows: seq<Settlement>, at: nat, row: Settlement, from: Option<int>, to: int)
    requires at < |rows| && row.key == rows[at].key
    ensures var inside := (from.None? || from.value <= row.key.at) && row.key.at <= to;
      if inside then row in Within(rows[at := row], from, to) else Within(rows[at := row], from, to) == Within(rows, from, to)
  {
    var after := rows[at := row];
    if at > 0 {
      assert after[1..] == rows[1..][at - 1 := row];
      WindowFollows(rows[1..], at - 1, row, from, to);
    } else {
      assert after[1..] == rows[1..];
    }
  }

  lemma UnknownIn(rows: seq<Settlement>, row: Settlement)
    requires row in rows && AuthoritativeCash(row).None?
    ensures Recognized(rows).None?
  {
    var i :| 0 <= i < |rows| && rows[i] == row;
    UnknownRowHidesTotal(rows, i);
  }

  /** Is the row's instant among those the exit funding is summed over? */
  predicate InExitWindow(closed: ClosedTrade, key: Key) {
    closed.exitStartedAt.Some? && closed.exitStartedAt.value <= key.at <= closed.at
  }

  /** Marking a row after the close leaves the closed figures right exactly when it changes nothing, or total funding was
      unknown already and so was the exit funding the row belongs to: the mark itself recomputes nothing. */
  lemma MarkAfterClose(e: Engine, update: Settlement)
    requires Inv(e) && e.closed.Some? && Settled(e)
    ensures Settled(MarkUnresolved(e, update)) <==>
      || !MarksUnresolved(e.rows, update)
      || (&& Recognized(e.rows).None?
          && (InExitWindow(e.closed.value, update.key) ==>
                Recognized(Within(e.rows, e.closed.value.exitStartedAt, e.closed.value.at)).None?))
  {
    hide DeskOk, LogOk, Registered, Upsert;
    if MarksUnresolved(e.rows, update) {
      var c, at := e.closed.value, RowAt(e.rows, update.key).value;
      UpsertInPlace(e.rows, at, update);
      var after := e.rows[at := update];
      assert after[at] in after && e.rows[at] in e.rows;
      UnknownIn(after, update);
      WindowFollows(e.rows, at, update, c.exitStartedAt, c.at);
      if InExitWindow(c, update.key) {
        UnknownIn(Within(after, c.exitStartedAt, c.at), update);
      }
      if Recognized(e.rows).None? && c.primaryValid {
        CompleteIsKnown(e);
      }
    }
  }

  const FREE := Rates(0.0, 0.0, 0.0, 0.0, None)
  const SAMPLE := Position(true, Extended, true, 1.0, 1.0, 1.0, 0.0, 0.0, 0, 0, 1.0, FREE)
  const SAMPLE_CYCLE := Cycle("c", 5, CycleEvent(Key(5, Risex, 0), None, false), CycleEvent(Key(5, Extended, 0), None, false))
  const SAMPLE_MARK := Settlement(Key(5, Extended, 0), Unresolved, None)

  /** A position opened at 0 whose basis breaks at 10, closed by two taker fills. */
  function SampleClosed(): Engine {
    Evaluate(Start(Holding, SAMPLE, Some(SAMPLE_CYCLE), None, {}), 10, Look(true, Some(1.0), Some(2.0), None, Some(1.0), Some(2.0)), None,
             false).engine
  }

  /** A closed net that says known funding while the row behind it is marked unresolved. */
  lemma MarkAfterCloseDiverges()
    ensures var e := SampleClosed(); var marked := MarkUnresolved(e, SAMPLE_MARK);
      && e.closed.Some? && Settled(e) && !Settled(marked)
      && marked.closed.value.net.Some? && Recognized(marked.rows).None?
  {
    hide SampleClosed, Inv, Settled, MarkUnresolved, Upsert, SkipFuture, Recognized, Within, MarksUnresolved;
    var e := SampleClosed();
    SampleRows();
    SampleCloses();
    SampleSettled();
    MarkAfterClose(e, SAMPLE_MARK);
    MarkLeavesUnknown(e, SAMPLE_MARK);
  }

  lemma SampleSettled()
    ensures Inv(SampleClosed()) && Settled(SampleClosed())
  {
    hide Inv, Settled, Evaluate, Kept, Start;
    var start := Start(Holding, SAMPLE, Some(SAMPLE_CYCLE), None, {});
    var look := Look(true, Some(1.0), Some(2.0), None, Some(1.0), Some(2.0));
    StartHolds(Holding, SAMPLE, Some(SAMPLE_CYCLE), None, {});
    StartIsOpen(start);
    EvaluateKeeps(start, 10, look, None, false);
    EvaluateSettles(start, 10, look, None, false);
    KeptInv(start, SampleClosed());
  }

  lemma StartIsOpen(e: Engine)
    ensures e == Start(Holding, SAMPLE, Some(SAMPLE_CYCLE), None, {}) ==> e.closed.None? && e.log.Timely(10)
  {
  }

  /** A mark that takes effect makes total funding unknown and leaves the closed trade alone. */
  lemma MarkLeavesUnknown(e: Engine, update: Settlement)
    requires Inv(e) && MarksUnresolved(e.rows, update)
    ensures Recognized(MarkUnresolved(e, update).rows).None? && MarkUnresolved(e, update).closed == e.closed
  {
    hide DeskOk, LogOk, Registered, Upsert, Recognized;
    var at := RowAt(e.rows, update.key).value;
    UpsertInPlace(e.rows, at, update);
    assert e.rows[at := update][at] in e.rows[at := update];
    UnknownIn(e.rows[at := update], update);
  }

  const SAMPLE_ROWS := [Settlement(Key(5, Extended, 0), Pending, None), Settlement(Key(5, Risex, 0), Pending, None)]

  lemma SampleRows()
    ensures Start(Holding, SAMPLE, Some(SAMPLE_CYCLE), None, {}).rows == SAMPLE_ROWS
    ensures SkipFuture(SAMPLE_ROWS, 10) == SAMPLE_ROWS && Recognized(SAMPLE_ROWS) == Some(0.0)
    ensures MarksUnresolved(SAMPLE_ROWS, SAMPLE_MARK)
  {
    assert SAMPLE_ROWS[1..] == [SAMPLE_ROWS[1]];
    assert SAMPLE_ROWS[1..][1..] == [];
  }

  lemma SampleCloses()
    ensures var e := SampleClosed(); e.closed.Some? && e.rows == SAMPLE_ROWS && e.closed.value.net.Some?
  {
    hide SkipFuture, Recognized, Within, Upsert;
    SampleRows();
    assert SAMPLE.Basis(1.0, 2.0) == 1.0;
  }
}

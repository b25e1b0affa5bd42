/**
 What every operation of the paper engine keeps, whatever the market shows it.
 */
module PaperInvariant {
  import opened Wrappers
  import opened Funding
  import opened PaperMarket
  import opened PaperEngine
  import opened PaperDesk

  // ----- Gaps and events -----

  /** Gaps are disjoint and in order, only the last may be open, and a gap has degraded the data for good. */
  ghost predicate LogOk(log: Log) {
    && (forall i, j | 0 <= i < j < |log.events| :: log.events[i].at <= log.events[j].at)
    && (forall i | 0 <= i < |log.gaps| :: log.gaps[i].end.Some? ==> log.gaps[i].start <= log.gaps[i].end.value)
    && (forall i, j | 0 <= i < j < |log.gaps| :: log.gaps[i].end.Some? && log.gaps[i].end.value <= log.gaps[j].start)
    && (log.gaps != [] ==> log.degraded && log.events != [] && GapReach(log.gaps[|log.gaps| - 1]) <= log.events[|log.events| - 1].at)
  }

  function GapReach(gap: Gap): int {
    if gap.end.Some? then gap.end.value else gap.start
  }

  /** Events are only appended, gaps only added or ended, and data once degraded stays degraded. */
  ghost predicate LogGrows(before: Log, after: Log) {
    && before.events <= after.events && |before.gaps| <= |after.gaps| && (before.degraded ==> after.degraded)
    && forall i | 0 <= i < |before.gaps| :: GapGrows(before.gaps[i], after.gaps[i])
  }

  ghost predicate GapGrows(before: Gap, after: Gap) {
    if before.end.Some? then after == before else after.start == before.start && after.overlappedExit == before.overlappedExit
  }

  lemma LogGrowsTransitive(a: Log, b: Log, c: Log)
    requires LogGrows(a, b) && LogGrows(b, c)
    ensures LogGrows(a, c)
  {
    forall i | 0 <= i < |a.gaps| ensures GapGrows(a.gaps[i], c.gaps[i]) {
      assert GapGrows(a.gaps[i], b.gaps[i]) && GapGrows(b.gaps[i], c.gaps[i]);
    }
  }

  lemma AppendKeeps(log: Log, kind: EventKind, at: int, detail: Option<CloseReason>)
    requires LogOk(log) && log.Timely(at)
    ensures var after := log.Append(kind, at, detail);
      LogOk(after) && LogGrows(log, after) && after.Timely(at) && after.GapOpen() == log.GapOpen()
  {
  }

  lemma UnavailableKeeps(log: Log, at: int)
    requires LogOk(log) && log.Timely(at)
    ensures var after := RecordUnavailable(log, at);
      LogOk(after) && LogGrows(log, after) && after.Timely(at) && after.GapOpen() == log.GapOpen()
  {
  }

  lemma OpenGapKeeps(log: Log, at: int, exiting: bool)
    requires LogOk(log) && log.Timely(at) && !log.GapOpen()
    ensures var after := OpenGap(log, at, exiting);
      LogOk(after) && LogGrows(log, after) && after.Timely(at) && after.GapOpen()
  {
    var after := OpenGap(log, at, exiting);
    assert forall i | 0 <= i < |log.gaps| :: after.gaps[i] == log.gaps[i];
    forall i, j | 0 <= i < j < |after.gaps| ensures after.gaps[i].end.Some? && after.gaps[i].end.value <= after.gaps[j].start {
      if j == |log.gaps| && i < j - 1 {
        assert log.gaps[i].end.value <= log.gaps[j - 1].start;
      }
    }
  }

  lemma CloseGapKeeps(log: Log, at: int, rows: seq<Settlement>)
    requires LogOk(log) && log.Timely(at) && log.GapOpen()
    ensures var after := CloseGap(log, at, rows);
      LogOk(after) && LogGrows(log, after) && after.Timely(at) && !after.GapOpen()
  {
  }

  // ----- Funding rows -----

  /** Cash is recorded exactly as the status allows. */
  predicate RowSound(row: Settlement) {
    match row.status
    case Estimated => row.cash.Some?
    case AppliedRate => row.cash.Some?
    case Unresolved => true
    case _ => row.cash.None?
  }

  ghost predicate RowsOk(rows: seq<Settlement>) {
    Sorted(rows) && forall row <- rows :: RowSound(row)
  }

  lemma UpsertClimbs(rows: seq<Settlement>, row: Settlement)
    requires RowsOk(rows) && RowSound(row) && forall r <- rows :: r.key == row.key ==> Reaches(r.status, row.status)
    ensures RowsOk(Upsert(rows, row)) && Climbed(rows, Upsert(rows, row)) && row in Upsert(rows, row)
  {
    UpsertKeepsSorted(rows, row);
    var after := Upsert(rows, row);
    forall r <- rows ensures exists later <- after :: later.key == r.key && Reaches(r.status, later.status) {
      if r.key != row.key {
        assert r in after;
      }
    }
  }

  lemma UpdateKeeps(rows: seq<Settlement>, update: Settlement)
    requires RowsOk(rows)
    ensures var after := ApplyUpdate(rows, update);
      after.Ok? ==> RowsOk(after.value) && Climbed(rows, after.value)
  {
    hide Upsert, Reaches, Climbed;
    UpdateClimbs(rows, update);
    if ApplyUpdate(rows, update).Ok? {
      var at := RowAt(rows, update.key).value;
      UpdatedRow(rows, at, update);
      assert RowSound(NewRow(rows[at], update).value) by { NewRowSound(rows[at], update); }
    }
  }

  lemma NewRowSound(current: Settlement, update: Settlement)
    requires RowSound(current)
    ensures var row := NewRow(current, update); row.Ok? ==> RowSound(row.value)
  {
  }

  lemma KeysStay(before: seq<Settlement>, after: seq<Settlement>, key: Key)
    requires Climbed(before, after) && RowAt(before, key).Some?
    ensures RowAt(after, key).Some?
  {
    var row := before[RowAt(before, key).value];
    assert row in before;
  }

  lemma AddRowKeeps(rows: seq<Settlement>, event: CycleEvent, openedAt: int)
    requires RowsOk(rows)
    ensures var after := AddRow(rows, RowFor(event, openedAt));
      RowsOk(after) && Climbed(rows, after) && RowAt(after, event.key).Some?
  {
    var row := RowFor(event, openedAt);
    if RowAt(rows, event.key).None? {
      UpsertClimbs(rows, row);
    }
  }

  lemma RegisterKeeps(rows: seq<Settlement>, cycle: Cycle, openedAt: int)
    requires RowsOk(rows)
    ensures var after := Register(rows, cycle, openedAt);
      after.Ok? ==> RowsOk(after.value) && Climbed(rows, after.value) && Registered(after.value, cycle)
  {
    hide AddRow, RowsOk, Climbed;
    var one := AddRow(rows, RowFor(cycle.risex, openedAt));
    AddRowKeeps(rows, cycle.risex, openedAt);
    AddRowKeeps(one, cycle.hedge, openedAt);
    var two := AddRow(one, RowFor(cycle.hedge, openedAt));
    KeysStay(one, two, cycle.risex.key);
    ClimbedTransitive(rows, one, two);
  }

  lemma {:induction false} SkippedAt(rows: seq<Settlement>, closedAt: int)
    ensures |SkipFuture(rows, closedAt)| == |rows|
    ensures forall i | 0 <= i < |rows| :: SkipFuture(rows, closedAt)[i] == Skip(rows[i], closedAt)
  {
    if rows != [] {
      SkippedAt(rows[1..], closedAt);
    }
  }

  lemma SkipClimbs(row: Settlement, closedAt: int)
    requires RowSound(row)
    ensures var after := Skip(row, closedAt); after.key == row.key && Reaches(row.status, after.status) && RowSound(after)
  {
  }

  lemma SkipKeeps(rows: seq<Settlement>, closedAt: int)
    requires RowsOk(rows)
    ensures RowsOk(SkipFuture(rows, closedAt)) && Climbed(rows, SkipFuture(rows, closedAt))
  {
    hide SkipFuture, Skip, RowSound, Reaches;
    var after := SkipFuture(rows, closedAt);
    SkippedAt(rows, closedAt);
    forall i | 0 <= i < |rows|
      ensures after[i].key == rows[i].key && Reaches(rows[i].status, after[i].status) && RowSound(after[i])
    {
      SkipClimbs(rows[i], closedAt);
    }
    forall row <- rows ensures exists later <- after :: later.key == row.key && Reaches(row.status, later.status) {
      var i :| 0 <= i < |rows| && rows[i] == row;
      assert after[i] in after;
    }
  }

  // ----- The whole engine -----

  ghost predicate OrderTerms(desk: Desk, p: Position) {
    desk.order.Some? ==>
      var order := desk.order.value;
      order.venue == p.MakerVenue() && order.market == p.makerMarket && order.side == p.MakerExitSide() && order.quantity == p.quantity
  }

  /** A maker close is the last exit version filled at its own price, and every other close leaves no filled version. */
  ghost predicate ClosedTerms(desk: Desk, closed: ClosedTrade) {
    var last := desk.Last();
    && (closed.reason.HardBasisClose? <==> !(last.Some? && last.value.status.Filled?))
    && (!closed.reason.HardBasisClose? ==>
          && closed.reason == (if last.value.mode.ExitingAggressive? then AggressiveMaker else NormalMaker)
          && (if desk.order.value.venue.Risex? then closed.risex else closed.hedge).price == last.value.limit
          && last.value.closedAt == Some(closed.at))
  }

  ghost predicate Phases(e: Engine) {
    && (e.phase.Flat? <==> e.held.None?) && (e.phase.Flat? <==> e.closed.Some?)
    && (e.log.GapOpen() ==> !e.phase.Flat? && e.desk.Active().None?)
    && (e.phase.Holding? ==> e.desk.order.None? && e.exitingSince.None?)
    && (e.phase.Exiting() ==> e.exitingSince.Some?)
    && (e.held.Some? ==> NotFilled(e.desk) && e.held.value.makerTick == e.tick && OrderTerms(e.desk, e.held.value)
                         && !e.held.value.hedgeVenue.Risex?)
    && (e.phase.Flat? ==> e.desk.Active().None? && ClosedTerms(e.desk, e.closed.value))
  }

  ghost predicate Inv(e: Engine) {
    && DeskOk(e.desk, e.tick, e.processed) && LogOk(e.log) && RowsOk(e.rows) && Phases(e)
    && (e.cycle.Some? ==> Registered(e.rows, e.cycle.value))
  }

  /** What no funding update may change about a closed trade. */
  ghost predicate SameClose(before: ClosedTrade, after: ClosedTrade) {
    after == before.(recognized := after.recognized, net := after.net, applied := after.applied, appliedNet := after.appliedNet,
      exitFunding := after.exitFunding, primaryValid := after.primaryValid)
  }

  /** One way only: phases climb, logs and orders grow, rows climb, seen trades stay seen, a close stands. */
  ghost predicate Advances(before: Engine, after: Engine) {
    && before.phase.Rank() <= after.phase.Rank() && before.tick == after.tick && before.processed <= after.processed
    && DeskGrows(before.desk, after.desk) && LogGrows(before.log, after.log) && Climbed(before.rows, after.rows)
    && (before.exitingSince.Some? ==> after.exitingSince == before.exitingSince)
    && (after.held.Some? ==> before.held == after.held)
    && (before.closed.Some? ==> after.closed.Some? && SameClose(before.closed.value, after.closed.value))
  }

  lemma AdvancesReflexive(e: Engine)
    ensures Advances(e, e)
  {
    forall row <- e.rows ensures exists later <- e.rows :: later.key == row.key && Reaches(row.status, later.status) {
      assert row.key == row.key && Reaches(row.status, row.status);
    }
  }

  lemma AdvancesTransitive(a: Engine, b: Engine, c: Engine)
    requires Advances(a, b) && Advances(b, c)
    ensures Advances(a, c)
  {
    hide DeskGrows, LogGrows, Climbed;
    DeskGrowsTransitive(a.desk, b.desk, c.desk);
    LogGrowsTransitive(a.log, b.log, c.log);
    ClimbedTransitive(a.rows, b.rows, c.rows);
  }

  /** Everything the lemmas below promise of an operation. */
  ghost predicate Kept(before: Engine, after: Engine) {
    Inv(after) && Advances(before, after)
  }

  lemma KeptTransitive(a: Engine, b: Engine, c: Engine)
    requires Kept(a, b) && Kept(b, c)
    ensures Kept(a, c)
  {
    hide Inv, Advances;
    AdvancesTransitive(a, b, c);
  }

  lemma KeptReflexive(e: Engine)
    requires Inv(e)
    ensures Kept(e, e)
  {
    AdvancesReflexive(e);
  }

  lemma CycleStays(before: Engine, rows: seq<Settlement>)
    requires Climbed(before.rows, rows) && (before.cycle.Some? ==> Registered(before.rows, before.cycle.value))
    ensures before.cycle.Some? ==> Registered(rows, before.cycle.value)
  {
    if before.cycle.Some? {
      KeysStay(before.rows, rows, before.cycle.value.risex.key);
      KeysStay(before.rows, rows, before.cycle.value.hedge.key);
    }
  }

  /** Working on desk and log alone keeps everything, as long as a gap leaves no version open. */
  lemma DeskAndLogKeep(e: Engine, desk: Desk, log: Log)
    requires Inv(e) && e.held.Some? && !e.phase.Holding?
    requires DeskOk(desk, e.tick, e.processed) && DeskGrows(e.desk, desk) && NotFilled(desk) && OrderTerms(desk, e.held.value)
    requires LogOk(log) && LogGrows(e.log, log) && (log.GapOpen() ==> desk.Active().None?)
    ensures Kept(e, e.(desk := desk, log := log))
  {
    hide DeskOk, DeskGrows, LogOk, LogGrows, Climbed, RowsOk, NotFilled, OrderTerms;
    AdvancesReflexive(e);
  }

  lemma LogKeeps(e: Engine, log: Log)
    requires Inv(e) && LogOk(log) && LogGrows(e.log, log) && (log.GapOpen() ==> !e.phase.Flat? && e.desk.Active().None?)
    ensures Kept(e, e.(log := log))
  {
    hide DeskOk, DeskGrows, LogOk, LogGrows, Climbed, RowsOk, NotFilled, OrderTerms;
    AdvancesReflexive(e);
  }

  lemma RowsKeep(e: Engine, rows: seq<Settlement>)
    requires Inv(e) && RowsOk(rows) && Climbed(e.rows, rows)
    ensures Kept(e, e.(rows := rows))
  {
    CycleStays(e, rows);
    AdvancesReflexive(e);
    hide DeskOk, DeskGrows, LogOk, LogGrows, Climbed, RowsOk, NotFilled, OrderTerms;
  }

  lemma EnsureTerms(desk: Desk, p: Position, price: Option<Positive>, mode: Phase, at: int, transition: bool)
    requires OrderTerms(desk, p)
    ensures OrderTerms(EnsureVersion(desk, p, price, mode, at, transition), p)
  {
  }

  lemma CancelTerms(desk: Desk, p: Position, reason: VersionReason, at: int)
    requires OrderTerms(desk, p)
    ensures OrderTerms(CancelVersion(desk, reason, at), p)
  {
  }

  lemma CancelHolds(e: Engine, reason: VersionReason, at: int)
    requires Inv(e) && e.held.Some?
    ensures Kept(e, e.(desk := CancelVersion(e.desk, reason, at)))
  {
    CancelKeeps(e.desk, e.tick, e.processed, reason, at);
    CancelTerms(e.desk, e.held.value, reason, at);
    if e.phase.Holding? {
      KeptReflexive(e);
    } else {
      hide DeskOk, DeskGrows, LogOk, LogGrows, Climbed, RowsOk, NotFilled, OrderTerms;
      LogGrowsReflexive(e.log);
      DeskAndLogKeep(e, CancelVersion(e.desk, reason, at), e.log);
    }
  }

  lemma LogGrowsReflexive(log: Log)
    ensures LogGrows(log, log)
  {
  }
}

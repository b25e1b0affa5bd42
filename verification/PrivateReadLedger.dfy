/**
 The one-shot ledger of the Extended private read: thirteen effects, each attempted and completed at most
 once, and a terminal record whose counters must show exactly what a successful read of its mode does.
 */
module PrivateReadLedger {
  import opened Wrappers
  import opened Effects

  datatype Mode = StreamMode | RestFallbackMode
  datatype Round = RoundA | RoundB
  datatype Resource = Info | Orders | Positions

  datatype Effect =
    | Loader | Rest(round: Round, resource: Resource) | StreamOpen | StreamUpgrade | BarrierRequest | BarrierValidation | StreamClose
    | TerminalPersistence
  {
    /** The effects of a read that never opens a stream. */
    predicate InFallback() {
      Loader? || Rest? || TerminalPersistence?
    }
  }

  const EFFECTS: seq<Effect> := [
    Loader, Rest(RoundA, Info), Rest(RoundA, Orders), Rest(RoundA, Positions), StreamOpen, StreamUpgrade, Rest(RoundB, Info),
    Rest(RoundB, Orders), Rest(RoundB, Positions), BarrierRequest, BarrierValidation, StreamClose, TerminalPersistence]

  lemma EveryEffect(effect: Effect)
    ensures effect in EFFECTS
  {
    match effect
    case Loader => assert EFFECTS[0] == effect;
    case Rest(round, resource) =>
      var first := if round.RoundA? then 1 else 6;
      assert EFFECTS[first + if resource.Info? then 0 else if resource.Orders? then 1 else 2] == effect;
    case StreamOpen => assert EFFECTS[4] == effect;
    case StreamUpgrade => assert EFFECTS[5] == effect;
    case BarrierRequest => assert EFFECTS[9] == effect;
    case BarrierValidation => assert EFFECTS[10] == effect;
    case StreamClose => assert EFFECTS[11] == effect;
    case TerminalPersistence => assert EFFECTS[12] == effect;
  }

  type Counters = map<Effect, Pair>

  /** What the decoder demands of stored counters. */
  predicate Decodes(counters: Counters) {
    forall effect <- EFFECTS :: Of(counters, effect).attempts <= 1 && Of(counters, effect).completions <= Of(counters, effect).attempts
  }

  /** Every effect a read of this mode has is done once, and no other was ever tried. */
  predicate SuccessPattern(counters: Counters, mode: Mode) {
    forall effect <- EFFECTS ::
      Of(counters, effect) == if mode.StreamMode? || effect.InFallback() then Pair(1, 1) else Pair(0, 0)
  }

  datatype PhaseName = Started | At(effect: Effect) | TerminalPhase
  datatype Status = Ready | Blocked | Unknown

  /** The mode stands for the configuration hash, which differs between modes. */
  datatype OperationalResult = OperationalResult(
    status: Status, reason: string, phase: PhaseName, counters: Counters, restCalls: nat, streamFrames: nat, clockCalls: nat,
    identityVerified: bool, mode: Mode)

  function ReadyReason(mode: Mode): string {
    if mode.StreamMode? then "OPERATIONAL_CONTRACT_PROVED" else "REST_FALLBACK_CONTRACT_PROVED"
  }

  /** What the decoder demands of a READY record. */
  predicate ReadyDecodes(r: OperationalResult, mode: Mode) {
    && r.reason == ReadyReason(mode) && r.restCalls == 6 && r.identityVerified && SuccessPattern(r.counters, mode)
    && (if mode.StreamMode? then r.clockCalls == 7 else r.clockCalls == 6 && r.streamFrames == 0)
  }

  predicate ResultDecodes(r: OperationalResult, mode: Mode) {
    && r.mode == mode && Decodes(r.counters) && r.reason != ""
    && (r.status.Ready? ==> ReadyDecodes(r, mode))
    && (r.status.Blocked? ==> !r.identityVerified)
  }

  datatype LedgerState = Running | Finished
  datatype LedgerRow = LedgerRow(mode: Mode, state: LedgerState, phase: PhaseName, counters: Counters, evidence: Option<OperationalResult>)

  function Interrupted(row: LedgerRow): OperationalResult {
    OperationalResult(Unknown, "INTERRUPTED_RUNNING", row.phase, row.counters, 0, 0, 0, false, row.mode)
  }

  /** What a start in some mode answers from a row it finds, or why it refuses. */
  function Answer(row: LedgerRow, mode: Mode): Result<OperationalResult, string> {
    if row.mode != mode then Err("DURABLE_IDENTITY_MISMATCH")
    else if !Decodes(row.counters) then Err("DURABLE_COUNTERS_INVALID")
    else if row.state.Finished? && row.evidence.Some? then
      if ResultDecodes(row.evidence.value, mode) && row.evidence.value.counters == row.counters && row.evidence.value.phase == row.phase
      then Ok(row.evidence.value) else Err("DURABLE_EVIDENCE_INVALID")
    else if row.state.Running? && row.evidence.None? then Ok(Interrupted(row))
    else Err("DURABLE_STATE_INVALID")
  }

  /** Nothing happened that was not written down first, and the row answers as it was left. */
  ghost predicate LedgerOk(row: Option<LedgerRow>, performed: seq<Effect>) {
    if row.None? then performed == []
    else
      && Decodes(row.value.counters)
      && (forall effect <- EFFECTS :: Times(performed, effect) <= Of(row.value.counters, effect).attempts)
      && (row.value.state.Running? ==> row.value.evidence.None?)
      && (row.value.state.Finished? ==>
            row.value.evidence.Some? && Answer(row.value, row.value.mode) == Ok(row.value.evidence.value))
  }

  predicate MayIncrement(counters: Counters, effect: Effect, completion: bool) {
    var pair := Of(counters, effect);
    if completion then pair.completions == 0 && pair.attempts == 1 else pair.attempts == 0
  }

  function Incremented(counters: Counters, effect: Effect, completion: bool): Counters {
    if completion then Completed(counters, effect) else Attempted(counters, effect)
  }

  function After(row: LedgerRow, effect: Effect, completion: bool): LedgerRow {
    row.(phase := At(effect), counters := Incremented(row.counters, effect, completion))
  }

  /** A running row that may take this increment. */
  predicate Takes(row: Option<LedgerRow>, effect: Effect, completion: bool) {
    row.Some? && row.value.state.Running? && MayIncrement(row.value.counters, effect, completion)
  }

  lemma IncrementOk(row: LedgerRow, performed: seq<Effect>, effect: Effect, completion: bool)
    requires LedgerOk(Some(row), performed) && Takes(Some(row), effect, completion)
    ensures LedgerOk(Some(After(row, effect, completion)), performed)
    ensures !completion ==> Times(performed, effect) == 0
  {
    var after := After(row, effect, completion).counters;
    forall other <- EFFECTS
      ensures Of(after, other).attempts <= 1 && Of(after, other).completions <= Of(after, other).attempts
      ensures Times(performed, other) <= Of(after, other).attempts
    {
      assert Of(row.counters, other).completions <= Of(row.counters, other).attempts <= 1;
      assert Times(performed, other) <= Of(row.counters, other).attempts;
    }
    EveryEffect(effect);
  }

  lemma PerformOk(row: LedgerRow, performed: seq<Effect>, effect: Effect)
    requires LedgerOk(Some(row), performed) && Of(row.counters, effect).attempts == 1 && Times(performed, effect) == 0
    ensures LedgerOk(Some(row), performed + [effect])
  {
    forall other <- EFFECTS ensures Times(performed + [effect], other) <= Of(row.counters, other).attempts {
      TimesAppend(performed, effect, other);
      assert Times(performed, other) <= Of(row.counters, other).attempts;
    }
  }

  // ----- Finishing -----

  function FinishedCounters(counters: Counters): Counters {
    counters[TerminalPersistence := Pair(1, 1)]
  }

  /** The terminal record of a result: its phase and counters are those of the finished row. */
  function FinishedRow(row: LedgerRow, result: OperationalResult): LedgerRow {
    var counters := FinishedCounters(row.counters);
    LedgerRow(row.mode, Finished, TerminalPhase, counters,
              Some(result.(phase := TerminalPhase, counters := counters, mode := row.mode)))
  }

  /** A result a running row may be finished with: READY only after everything its mode does, and with its call counts. */
  predicate MayFinish(row: LedgerRow, result: OperationalResult) {
    && row.state.Running? && row.evidence.None? && Of(row.counters, TerminalPersistence) == Pair(0, 0)
    && result.reason != "" && !result.status.Unknown? && (result.status.Blocked? ==> !result.identityVerified)
    && (result.status.Ready? ==> ReadyDecodes(result.(counters := FinishedCounters(row.counters)), row.mode))
  }

  /** Every terminal record written decodes, and is what any later start in its mode answers. */
  lemma FinishedAnswers(row: LedgerRow, performed: seq<Effect>, result: OperationalResult)
    requires LedgerOk(Some(row), performed) && MayFinish(row, result)
    ensures LedgerOk(Some(FinishedRow(row, result)), performed)
    ensures Answer(FinishedRow(row, result), row.mode) == Ok(FinishedRow(row, result).evidence.value)
  {
    var after := FinishedRow(row, result).counters;
    forall other <- EFFECTS
      ensures Of(after, other).attempts <= 1 && Of(after, other).completions <= Of(after, other).attempts
      ensures Times(performed, other) <= Of(after, other).attempts
    {
      assert Of(row.counters, other).completions <= Of(row.counters, other).attempts <= 1;
      assert Times(performed, other) <= Of(row.counters, other).attempts;
    }
  }

  /** A running row only ever answers that it was interrupted; no READY or BLOCKED can come of it. */
  lemma RunningAnswersUnknown(row: LedgerRow, performed: seq<Effect>, mode: Mode)
    requires LedgerOk(Some(row), performed) && row.state.Running?
    ensures Answer(row, mode) == if row.mode == mode then Ok(Interrupted(row)) else Err("DURABLE_IDENTITY_MISMATCH")
  {
  }

  // ----- The file -----

  /** The row of one invocation, opened in a mode. Any call may die with its process on either side of its one
      transaction, or find the file unavailable. */
  class OperationalStore {
    var row: Option<LedgerRow>

    constructor ()
      ensures row == None
    {
      row := None;
    }

    /** None when this start owns the run. */
    method Claim(mode: Mode) returns (f: Fate<Option<OperationalResult>>)
      modifies this
      ensures row == old(row) || (old(row).None? && row == Some(LedgerRow(mode, Running, Started, map[], None)))
      ensures f.Done? && f.value.None? ==> old(row).None? && row.Some?
      ensures f.Done? && f.value.Some? ==> old(row).Some? && Answer(old(row).value, mode) == Ok(f.value.value)
      ensures f.Raised? ==> row == old(row) && (f.code == "STORE_UNAVAILABLE" || (row.Some? && Answer(row.value, mode) == Err(f.code)))
    {
      if * { return Fate.Raised("STORE_UNAVAILABLE"); }
      if row.None? {
        if * { return Crashed; }
        row := Some(LedgerRow(mode, Running, Started, map[], None));
        if * { return Crashed; }
        return Done(None);
      }
      if row.value.mode != mode { return Fate.Raised("DURABLE_IDENTITY_MISMATCH"); }
      if !Decodes(row.value.counters) { return Fate.Raised("DURABLE_COUNTERS_INVALID"); }
      if row.value.state.Finished? && row.value.evidence.Some? {
        var recorded := row.value.evidence.value;
        if !ResultDecodes(recorded, mode) || recorded.counters != row.value.counters || recorded.phase != row.value.phase {
          return Fate.Raised("DURABLE_EVIDENCE_INVALID");
        }
        return Done(Some(recorded));
      }
      if row.value.state.Running? && row.value.evidence.None? { return Done(Some(Interrupted(row.value))); }
      return Fate.Raised("DURABLE_STATE_INVALID");
    }

    /** Write an attempt or a completion down, once, in the phase of its effect. */
    method Increment(effect: Effect, completion: bool) returns (f: Fate<()>)
      modifies this
      ensures row == old(row) || (Takes(old(row), effect, completion) && row == Some(After(old(row).value, effect, completion)))
      ensures f.Done? ==> Takes(old(row), effect, completion) && row == Some(After(old(row).value, effect, completion))
      ensures f.Raised? ==> row == old(row) && f.code != ""
    {
      if * { return Fate.Raised("STORE_UNAVAILABLE"); }
      if row.None? || !row.value.state.Running? { return Fate.Raised("DURABLE_STATE_CONFLICT"); }
      if !Decodes(row.value.counters) { return Fate.Raised("DURABLE_COUNTERS_INVALID"); }
      var pair := Of(row.value.counters, effect);
      if !completion && pair.attempts != 0 { return Fate.Raised("EFFECT_REPLAY_FORBIDDEN"); }
      if completion && (pair.completions != 0 || pair.attempts != 1) { return Fate.Raised("DURABLE_COUNTERS_INVALID"); }
      if * { return Crashed; }
      var counted := if completion then pair.(completions := 1) else pair.(attempts := pair.attempts + 1);
      row := Some(row.value.(phase := At(effect), counters := row.value.counters[effect := counted]));
      if * { return Crashed; }
      return Done(());
    }

    method Snapshot() returns (f: Fate<LedgerRow>)
      ensures f.Done? ==> row == Some(f.value)
      ensures f.Raised? ==> f.code != ""
    {
      if * { return Crashed; }
      if * { return Fate.Raised("STORE_UNAVAILABLE"); }
      if row.None? { return Fate.Raised("DURABLE_STATE_INVALID"); }
      if !Decodes(row.value.counters) { return Fate.Raised("DURABLE_COUNTERS_INVALID"); }
      return Done(row.value);
    }

    /** The terminal attempt, then one transaction that finishes the row with the counters it then has. */
    method Finish(result: OperationalResult) returns (f: Fate<OperationalResult>)
      requires row.Some? && Of(row.value.counters, TerminalPersistence) == Pair(0, 0) && row.value.evidence.None? && result.mode == row.value.mode
      modifies this
      ensures row == old(row)
              || (Takes(old(row), TerminalPersistence, false)
                  && (row == Some(After(old(row).value, TerminalPersistence, false)) || row == Some(FinishedRow(old(row).value, result))))
      ensures f.Done? ==> row == Some(FinishedRow(old(row).value, result)) && row.value.evidence == Some(f.value)
    {
      var attempted := Increment(TerminalPersistence, false);
      if !attempted.Done? { return attempted.PropagateFailure(); }
      var read := Snapshot();
      if !read.Done? { return read.PropagateFailure(); }
      var counters := Completed(read.value.counters, TerminalPersistence);
      var terminal := result.(phase := TerminalPhase, counters := counters);
      if * { return Fate.Raised("STORE_UNAVAILABLE"); }
      if row.None? || !row.value.state.Running? { return Fate.Raised("DURABLE_STATE_CONFLICT"); }
      assert counters == FinishedCounters(old(row).value.counters);
      if * { return Crashed; }
      row := Some(row.value.(state := Finished, phase := TerminalPhase, counters := counters, evidence := Some(terminal)));
      if * { return Crashed; }
      return Done(terminal);
    }
  }
}

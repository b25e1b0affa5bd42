/**
 The one-shot ledger of the account-shape witness: every effect is written down before it happens,
 nothing written down is tried again, and what a finished run recorded is what every later start returns.
 */
module WitnessLedger {
  import opened Wrappers
  import opened Effects
  import opened ShapeDescriptor
  import opened ShapeTheorems

  const BODY_MAX_BYTES := 65_536

  datatype Effect = Loader | AccountInfo | Terminal

  datatype Counters = Counters(loader: Pair, info: Pair, terminal: Pair) {
    function Of(effect: Effect): Pair {
      match effect case Loader => loader case AccountInfo => info case Terminal => terminal
    }

    function With(effect: Effect, pair: Pair): Counters {
      match effect
      case Loader => this.(loader := pair)
      case AccountInfo => this.(info := pair)
      case Terminal => this.(terminal := pair)
    }

    /** What the decoder demands of stored counters. */
    predicate Decodes() {
      forall effect: Effect :: Of(effect).attempts <= 1 && Of(effect).completions <= Of(effect).attempts
    }
  }

  const NONE := Counters(Pair(0, 0), Pair(0, 0), Pair(0, 0))
  const ALL := Counters(Pair(1, 1), Pair(1, 1), Pair(1, 1))

  datatype PhaseName = AtStart | At(effect: Effect)
  datatype WitnessStatus = Captured | BlockedRun | UnknownRun
  datatype WitnessResult = WitnessResult(status: WitnessStatus, reason: string, phase: PhaseName, counters: Counters,
                                         descriptor: Option<Evidence>)

  /** What the decoder demands of durable evidence. */
  predicate ResultDecodes(r: WitnessResult) {
    && r.counters.Decodes() && r.reason != ""
    && (r.status.Captured? ==>
          r.reason == "ACCOUNT_SHAPE_CAPTURED" && r.phase == At(Terminal) && r.descriptor.Some? && r.counters == ALL)
    && (r.descriptor.Some? ==> Validate(r.descriptor.value, 0, 0).Ok? && EncodedLength(r.descriptor.value) <= MAX_BYTES)
  }

  datatype LedgerState = Running | Finished
  datatype LedgerRow = LedgerRow(state: LedgerState, phase: PhaseName, counters: Counters, evidence: Option<WitnessResult>)

  /** What a start that finds a row answers: the recorded result, or that the earlier run was interrupted. */
  function Answer(row: LedgerRow): Result<WitnessResult, string> {
    if !row.counters.Decodes() then Err("DURABLE_COUNTERS_INVALID")
    else match row.state
      case Finished =>
        if row.evidence.None? then Err("DURABLE_STATE_INVALID")
        else if !ResultDecodes(row.evidence.value) || row.evidence.value.counters != row.counters || row.evidence.value.phase != row.phase
        then Err("DURABLE_EVIDENCE_INVALID")
        else Ok(row.evidence.value)
      case Running =>
        if row.evidence.Some? then Err("DURABLE_STATE_INVALID")
        else Ok(WitnessResult(UnknownRun, "INTERRUPTED_RUNNING", row.phase, row.counters, None))
  }

  /** Nothing happened that was not written down first, and the row answers as it was left. */
  ghost predicate LedgerOk(row: Option<LedgerRow>, performed: seq<Effect>) {
    if row.None? then performed == []
    else
      && row.value.counters.Decodes() && (forall effect: Effect :: Times(performed, effect) <= row.value.counters.Of(effect).attempts)
      && Times(performed, Terminal) == 0
      && (row.value.state.Running? ==> row.value.evidence.None?)
      && (row.value.state.Finished? ==> row.value.evidence.Some? && Answer(row.value) == Ok(row.value.evidence.value))
  }

  datatype Reply = Reply(wellFormed: bool, bytes: int, transportFixed: bool, body: Body)

  /** The credential source and the account endpoint; either may fail before or after it has acted. */
  class Outside {
    ghost var performed: seq<Effect>

    method Open() returns (f: Fate<bool>)
      modifies this
      ensures performed == old(performed) || performed == old(performed) + [Loader]
      ensures f.Raised? ==> f.code != ""
    {
      if * { return Crashed; }
      performed := performed + [Loader];
      if * { return Crashed; }
      if * { return Fate.Raised("ACCOUNT_INFO_UNRESOLVED"); }
      if * { return Fate.Raised("CANCELLED"); }
      var usable: bool := *;
      return Done(usable);
    }

    method GetAccount() returns (f: Fate<Reply>)
      modifies this
      ensures performed == old(performed) || performed == old(performed) + [AccountInfo]
      ensures f.Raised? ==> f.code != ""
    {
      if * { return Crashed; }
      performed := performed + [AccountInfo];
      if * { return Crashed; }
      if * { return Fate.Raised("ACCOUNT_INFO_UNRESOLVED"); }
      if * { return Fate.Raised("CANCELLED"); }
      var reply: Reply := *;
      return Done(reply);
    }

    method Release() returns (f: Fate<()>)
    {
      if * { return Crashed; }
      if * { return Fate.Raised("CAPABILITY_CLOSE_FAILED"); }
      return Done(());
    }
  }

  /** The singleton row. Any call may die with its process on either side of its one transaction, or find the file locked. */
  class WitnessStore {
    var row: Option<LedgerRow>

    constructor ()
      ensures row == None
    {
      row := None;
    }

    /** None when this start owns the run. */
    method Claim() returns (f: Fate<Option<WitnessResult>>)
      modifies this
      ensures row == old(row) || (old(row).None? && row == Some(LedgerRow(Running, AtStart, NONE, None)))
      ensures f.Done? && f.value.None? ==> old(row).None? && row.Some?
      ensures f.Done? && f.value.Some? ==> old(row).Some? && Answer(old(row).value) == Ok(f.value.value)
      ensures f.Raised? && old(row).Some? ==> f.code == "STORE_UNAVAILABLE" || Answer(old(row).value) == Err(f.code)
    {
      if * { return Fate.Raised("STORE_UNAVAILABLE"); }
      if row.None? {
        if * { return Crashed; }
        row := Some(LedgerRow(Running, AtStart, NONE, None));
        if * { return Crashed; }
        return Done(None);
      }
      var answer := Answer(row.value);
      if answer.Err? { return Fate.Raised(answer.error); }
      return Done(Some(answer.value));
    }

    /** Write an attempt or a completion down, once, in the phase of its effect. */
    method Increment(effect: Effect, completion: bool) returns (f: Fate<()>)
      modifies this
      ensures row == old(row)
              || (old(row).Some? && Incremented(old(row).value, effect, completion) && row == Some(After(old(row).value, effect, completion)))
      ensures f.Done? ==> old(row).Some? && Incremented(old(row).value, effect, completion) && row == Some(After(old(row).value, effect, completion))
      ensures f.Raised? ==> row == old(row) && f.code != ""
    {
      if * { return Fate.Raised("STORE_UNAVAILABLE"); }
      if row.None? || !row.value.state.Running? { return Fate.Raised("DURABLE_STATE_CONFLICT"); }
      var counters := row.value.counters;
      if !counters.Decodes() { return Fate.Raised("DURABLE_COUNTERS_INVALID"); }
      var pair := counters.Of(effect);
      if !completion && pair.attempts != 0 { return Fate.Raised("EFFECT_REPLAY_FORBIDDEN"); }
      if completion && (pair.completions != 0 || pair.attempts != 1) { return Fate.Raised("DURABLE_COUNTERS_INVALID"); }
      if * { return Crashed; }
      var next := if completion then pair.(completions := pair.completions + 1) else pair.(attempts := pair.attempts + 1);
      row := Some(row.value.(phase := At(effect), counters := counters.With(effect, next)));
      if * { return Crashed; }
      return Done(());
    }

    method Read() returns (f: Fate<LedgerRow>)
      ensures f.Done? ==> row == Some(f.value) && f.value.counters.Decodes()
      ensures f.Raised? ==> f.code != ""
    {
      if * { return Crashed; }
      if * { return Fate.Raised("STORE_UNAVAILABLE"); }
      if row.None? { return Fate.Raised("DURABLE_STATE_INVALID"); }
      if !row.value.counters.Decodes() { return Fate.Raised("DURABLE_COUNTERS_INVALID"); }
      return Done(row.value);
    }

    /** The terminal attempt, then one transaction that finishes the row. */
    method Finish(result: WitnessResult) returns (f: Fate<WitnessResult>)
      requires row.Some? && ReadyToFinish(row.value, result)
      modifies this
      ensures row == old(row)
              || row == Some(After(old(row).value, Terminal, false))
              || (row.Some? && row.value.state.Finished? && row.value.evidence.Some? && FinishedFrom(old(row).value, result, row.value))
      ensures f.Done? ==> row.Some? && row.value.state.Finished? && row.value.evidence == Some(f.value)
                          && FinishedFrom(old(row).value, result, row.value)
      ensures row != old(row) ==> Incremented(old(row).value, Terminal, false)
    {
      var attempted := Increment(Terminal, false);
      if !attempted.Done? { return attempted.PropagateFailure(); }
      var read := Read();
      if !read.Done? { return read.PropagateFailure(); }
      var counters := read.value.counters.With(Terminal, read.value.counters.terminal.(completions := 1));
      var terminal := WitnessResult(result.status, result.reason, At(Terminal), counters, result.descriptor);
      if * { return Fate.Raised("STORE_UNAVAILABLE"); }
      if row.None? || !row.value.state.Running? { return Fate.Raised("DURABLE_STATE_CONFLICT"); }
      if * { return Crashed; }
      row := Some(LedgerRow(Finished, At(Terminal), counters, Some(terminal)));
      if * { return Crashed; }
      return Done(terminal);
    }
  }

  /** May this attempt or completion be written down? */
  predicate Incremented(row: LedgerRow, effect: Effect, completion: bool) {
    var pair := row.counters.Of(effect);
    && row.state.Running? && row.counters.Decodes()
    && (if completion then pair.completions == 0 && pair.attempts == 1 else pair.attempts == 0)
  }

  function After(row: LedgerRow, effect: Effect, completion: bool): LedgerRow {
    var pair := row.counters.Of(effect);
    row.(phase := At(effect),
    counters := row.counters.With(effect, if completion then pair.(completions := 1) else pair.(attempts := 1)))
  }

  /** A result a running row may be finished with. */
  predicate ReadyToFinish(row: LedgerRow, result: WitnessResult) {
    && row.state.Running? && row.evidence.None? && row.counters.Decodes() && row.counters.terminal == Pair(0, 0) && result.reason != ""
    && !result.status.UnknownRun?
    && (result.descriptor.Some? <==> result.status.Captured?)
    && (result.status.Captured? ==>
          && result.reason == "ACCOUNT_SHAPE_CAPTURED" && row.counters.loader == Pair(1, 1) && row.counters.info == Pair(1, 1)
          && Validate(result.descriptor.value, 0, 0).Ok? && EncodedLength(result.descriptor.value) <= MAX_BYTES)
  }

  predicate FinishedFrom(before: LedgerRow, result: WitnessResult, after: LedgerRow) {
    && after.phase == At(Terminal) && after.counters == before.counters.(terminal := Pair(1, 1))
    && after.evidence == Some(WitnessResult(result.status, result.reason, At(Terminal), after.counters, result.descriptor))
  }

  lemma FinishAnswers(before: LedgerRow, result: WitnessResult, after: LedgerRow)
    requires ReadyToFinish(before, result) && FinishedFrom(before, result, after) && after.state.Finished?
    ensures after.counters.Decodes() && Answer(after) == Ok(after.evidence.value)
  {
    hide Validate, EncodedLength;
    forall effect: Effect ensures after.counters.Of(effect).attempts <= 1
      && after.counters.Of(effect).completions <= after.counters.Of(effect).attempts
    {
      assert before.counters.Of(effect).attempts <= 1 && before.counters.Of(effect).completions <= before.counters.Of(effect).attempts;
    }
  }
}

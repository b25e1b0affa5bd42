/**
 The account-shape witness as a program: claim, two effects, one terminal record, on a file that
 outlives every crash.
 */
module WitnessRun {
  import opened Wrappers
  import opened Effects
  import opened ShapeDescriptor
  import opened ShapeTheorems
  import opened WitnessLedger

  lemma WrittenDown(row: LedgerRow, performed: seq<Effect>, effect: Effect, completion: bool)
    requires LedgerOk(Some(row), performed) && Incremented(row, effect, completion)
    ensures LedgerOk(Some(After(row, effect, completion)), performed)
    ensures !completion ==> Times(performed, effect) == 0
  {
    var after := After(row, effect, completion);
    forall other: Effect ensures after.counters.Of(other).attempts <= 1
      && after.counters.Of(other).completions <= after.counters.Of(other).attempts
      && Times(performed, other) <= after.counters.Of(other).attempts
    {
      assert row.counters.Of(other).completions <= row.counters.Of(other).attempts <= 1;
      assert Times(performed, other) <= row.counters.Of(other).attempts;
    }
  }

  lemma Performed(row: LedgerRow, performed: seq<Effect>, effect: Effect)
    requires LedgerOk(Some(row), performed) && row.counters.Of(effect).attempts == 1 && Times(performed, effect) == 0 && !effect.Terminal?
    ensures LedgerOk(Some(row), performed + [effect])
  {
    assert (performed + [effect])[..|performed|] == performed;
    forall other: Effect ensures Times(performed + [effect], other) <= row.counters.Of(other).attempts {
      assert Times(performed, other) <= row.counters.Of(other).attempts;
    }
  }

  lemma {:induction false} WalkErrors(value: Body, depth: nat, emit: bool, seen: nat)
    ensures var walked := Walk(value, depth, emit, seen); walked.Err? ==> walked.error != ""
    decreases value
  {
    match value
    case Object(members) => MembersErrors(members, depth, emit, Inside(map[], 0, seen + Count(members)));
    case Array(items) => ItemsErrors(items, depth, seen);
    case _ =>
  }

  lemma {:induction false} MembersErrors(members: Members, depth: nat, emit: bool, inside: Inside)
    ensures var after := WalkMembers(members, depth, emit, inside); after.Err? ==> after.error != ""
    decreases members
  {
    if members.Member? && !members.key.NotText? {
      var writes := emit && members.key.Approved?;
      WalkErrors(members.value, depth + 1, writes, inside.seen);
      var child := Walk(members.value, depth + 1, writes, inside.seen);
      if child.Ok? {
        var known := if writes then inside.known[Field(members.key.name) := child.value.evidence] else inside.known;
        MembersErrors(members.rest, depth, emit,
                      Inside(known, if members.key.Approved? then inside.unknown else inside.unknown + 1, child.value.seen));
      }
    }
  }

  lemma {:induction false} ItemsErrors(items: Items, depth: nat, seen: nat)
    ensures var after := WalkItems(items, depth, seen); after.Err? ==> after.error != ""
    decreases items
  {
    if items.Item? {
      WalkErrors(items.head, depth + 1, false, seen);
      var child := Walk(items.head, depth + 1, false, seen);
      if child.Ok? {
        ItemsErrors(items.tail, depth, child.value.seen);
      }
    }
  }

  method CheckReply(reply: Reply) returns (described: Fate<Evidence>)
    ensures described.Done? ==> Describe(reply.body) == Ok(described.value)
    ensures described.Done? ==> Validate(described.value, 0, 0).Ok? && EncodedLength(described.value) <= MAX_BYTES
    ensures described.Done? ==> 1 <= reply.bytes <= BODY_MAX_BYTES && reply.wellFormed && reply.transportFixed
    ensures described.Raised? ==> described.code != ""
    ensures !described.Crashed?
  {
    hide Describe, Validate, EncodedLength;
    if !reply.wellFormed || reply.bytes < 1 { return Fate.Raised("RESPONSE_CONTRACT_INVALID"); }
    if reply.bytes > BODY_MAX_BYTES { return Fate.Raised("BODY_TOO_LARGE"); }
    if !reply.transportFixed { return Fate.Raised("TRANSPORT_CONTRACT_INVALID"); }
    DescribedIsAccepted(reply.body);
    WalkErrors(reply.body, 0, true, 0);
    var shape := Describe(reply.body);
    if shape.Err? { return Fate.Raised(shape.error); }
    AcceptedIsShort(shape.value);
    return Done(shape.value);
  }

  /** Both effects, each attempted in writing first and completed in writing after. */
  method Capture(store: WitnessStore, outside: Outside) returns (described: Fate<Evidence>, held: bool)
    requires store.row == Some(LedgerRow(Running, AtStart, NONE, None)) && outside.performed == []
    modifies store, outside
    ensures LedgerOk(store.row, outside.performed) && store.row.Some? && store.row.value.state.Running?
    ensures store.row.value.counters.terminal == Pair(0, 0)
    ensures described.Done? ==> store.row.value.counters.loader == Pair(1, 1) && store.row.value.counters.info == Pair(1, 1)
    ensures described.Done? ==> Validate(described.value, 0, 0).Ok? && EncodedLength(described.value) <= MAX_BYTES
    ensures described.Raised? ==> described.code != ""
  {
    hide Validate, EncodedLength, LedgerOk;
    StartsOk();
    held := false;
    ghost var before := store.row.value;
    var step := store.Increment(Loader, false);
    WrittenDown(before, outside.performed, Loader, false);
    if !step.Done? { return step.PropagateFailure(), false; }
    Performed(store.row.value, outside.performed, Loader);
    var usable := outside.Open();
    if !usable.Done? { return usable.PropagateFailure(), false; }
    held := true;
    if !usable.value { return Fate.Raised("CREDENTIAL_CAPABILITY_INVALID"), true; }
    before := store.row.value;
    step := store.Increment(Loader, true);
    WrittenDown(before, outside.performed, Loader, true);
    if !step.Done? { return step.PropagateFailure(), true; }
    before := store.row.value;
    step := store.Increment(AccountInfo, false);
    WrittenDown(before, outside.performed, AccountInfo, false);
    if !step.Done? { return step.PropagateFailure(), true; }
    Performed(store.row.value, outside.performed, AccountInfo);
    var reply := outside.GetAccount();
    if !reply.Done? { return reply.PropagateFailure(), true; }
    described := CheckReply(reply.value);
    if !described.Done? { return described, true; }
    before := store.row.value;
    step := store.Increment(AccountInfo, true);
    WrittenDown(before, outside.performed, AccountInfo, true);
    if !step.Done? { return step.PropagateFailure(), true; }
  }

  lemma StartsOk()
    ensures LedgerOk(Some(LedgerRow(Running, AtStart, NONE, None)), [])
  {
    assert NONE.Decodes();
  }

  lemma RunningRow(row: LedgerRow, performed: seq<Effect>)
    requires LedgerOk(Some(row), performed)
    ensures row.counters.Decodes() && (row.state.Running? ==> row.evidence.None?)
  {
  }

  lemma FinishedOk(before: LedgerRow, performed: seq<Effect>, result: WitnessResult, after: LedgerRow)
    requires LedgerOk(Some(before), performed) && ReadyToFinish(before, result) && FinishedFrom(before, result, after) && after.state.Finished?
    ensures LedgerOk(Some(after), performed)
  {
    FinishAnswers(before, result, after);
    forall effect: Effect ensures Times(performed, effect) <= after.counters.Of(effect).attempts {
      assert Times(performed, effect) <= before.counters.Of(effect).attempts;
    }
  }

  /** A file that cannot be reached is no violation with a name of its own. */
  function Reason(code: string): string {
    if code == "STORE_UNAVAILABLE" then "ACCOUNT_INFO_UNRESOLVED" else code
  }

  /** One start. A start that finds a row does nothing but answer from it. */
  method FixtureRun(store: WitnessStore, outside: Outside) returns (f: Fate<WitnessResult>)
    requires LedgerOk(store.row, outside.performed)
    modifies store, outside
    ensures LedgerOk(store.row, outside.performed)
    ensures old(store.row).Some? ==> store.row == old(store.row) && outside.performed == old(outside.performed)
    ensures old(store.row).Some? && f.Done? ==> Answer(old(store.row).value) == Ok(f.value)
    ensures old(store.row).None? && f.Done? ==>
      store.row.Some? && store.row.value.state.Finished? && store.row.value.evidence == Some(f.value)
  {
    hide Validate, EncodedLength, ResultDecodes;
    var claimed := store.Claim();
    if store.row.Some? && old(store.row).None? { StartsOk(); }
    hide LedgerOk;
    if !claimed.Done? { return claimed.PropagateFailure(); }
    if claimed.value.Some? { return Done(claimed.value.value); }
    Fresh(old(store.row), outside.performed);
    var described, held := Capture(store, outside);
    RunningRow(store.row.value, outside.performed);
    if described.Crashed? { return Crashed; }
    var outcome := described;
    if described.Done? {
      var read := store.Read();
      if read.Crashed? { return Crashed; }
      if read.Raised? { outcome := Fate.Raised(read.code); }
    }
    var reason := if outcome.Raised? then Reason(outcome.code) else "ACCOUNT_SHAPE_CAPTURED";
    if outcome.Raised? {
      var read := store.Read();
      if !read.Done? { return read.PropagateFailure(); }
    }
    if held {
      var released := outside.Release();
      if released.Crashed? { return Crashed; }
      if released.Raised? && outcome.Done? {
        var read := store.Read();
        if !read.Done? { return read.PropagateFailure(); }
        outcome, reason := Fate.Raised("CAPABILITY_CLOSE_FAILED"), "CAPABILITY_CLOSE_FAILED";
      }
    }
    var row := store.row.value;
    var result := WitnessResult(if outcome.Done? then Captured else BlockedRun, reason, row.phase, row.counters,
                                if outcome.Done? then Some(outcome.value) else None);
    f := store.Finish(result);
    if store.row != Some(row) {
      if store.row.value.state.Finished? {
        FinishedOk(row, outside.performed, result, store.row.value);
      } else {
        WrittenDown(row, outside.performed, Terminal, false);
      }
    }
    if f.Done? && reason == "CANCELLED" { return Fate.Raised("CANCELLED"); }
  }

  lemma Fresh(row: Option<LedgerRow>, performed: seq<Effect>)
    requires LedgerOk(row, performed) && row.None?
    ensures performed == []
  {
  }

  lemma OnceEach(row: Option<LedgerRow>, performed: seq<Effect>)
    requires LedgerOk(row, performed)
    ensures forall effect: Effect :: Times(performed, effect) <= 1
    ensures |performed| <= 2
  {
    TimesAll(performed);
    if row.Some? {
      forall effect: Effect ensures Times(performed, effect) <= 1 {
        assert row.value.counters.Of(effect).attempts <= 1;
      }
    }
  }

  lemma {:induction false} TimesAll(performed: seq<Effect>)
    ensures |performed| == Times(performed, Loader) + Times(performed, AccountInfo) + Times(performed, Terminal)
  {
    if performed != [] {
      TimesAll(performed[..|performed| - 1]);
      var last := performed[|performed| - 1];
      assert last == Loader || last == AccountInfo || last == Terminal;
    }
  }

  /** What any start answers: the record of a finished run, and of a run left running that it is unknown. */
  ghost predicate Answers(row: LedgerRow, answer: WitnessResult) {
    && (row.state.Finished? ==> row.evidence == Some(answer))
    && (row.state.Running? ==> answer == WitnessResult(UnknownRun, "INTERRUPTED_RUNNING", row.phase, row.counters, None))
  }

  lemma AnswersFrom(row: LedgerRow, performed: seq<Effect>, answer: WitnessResult)
    requires LedgerOk(Some(row), performed)
    requires Answer(row) == Ok(answer) || (row.state.Finished? && row.evidence == Some(answer))
    ensures Answers(row, answer)
  {
    hide ResultDecodes;
  }

  /** Any number of starts on one file, each dying wherever it may: each effect happens at most once, every start that answers
      gives the same answer, and a run left running is only ever answered as unknown. */
  method ProcessStarts(starts: nat, store: WitnessStore, outside: Outside) returns (answers: seq<Fate<WitnessResult>>)
    requires store.row == None && outside.performed == []
    modifies store, outside
    ensures |answers| == starts
    ensures |outside.performed| <= 2 && forall effect: Effect :: Times(outside.performed, effect) <= 1
    ensures forall i, j | 0 <= i < starts && 0 <= j < starts && answers[i].Done? && answers[j].Done? :: answers[i] == answers[j]
    ensures forall answer <- answers | answer.Done? :: store.row.Some? && Answers(store.row.value, answer.value)
  {
    hide Answer;
    answers := [];
    for start := 0 to starts
      invariant |answers| == start && LedgerOk(store.row, outside.performed)
      invariant forall answer <- answers | answer.Done? :: store.row.Some? && Answers(store.row.value, answer.value)
    {
      var answer := FixtureRun(store, outside);
      if answer.Done? {
        AnswersFrom(store.row.value, outside.performed, answer.value);
      }
      answers := answers + [answer];
    }
    OnceEach(store.row, outside.performed);
    forall i, j | 0 <= i < starts && 0 <= j < starts && answers[i].Done? && answers[j].Done? ensures answers[i] == answers[j] {
      assert answers[i] in answers && answers[j] in answers;
    }
  }
}

/**
 The Extended private read as a program: two REST rounds around a private stream, or two REST rounds alone,
 every effect written down before it happens, on a file that outlives every crash.
 */
module PrivateRead {
  import opened Wrappers
  import opened Effects
  import opened PrivateReadLedger

  const MAX_OBSERVATION_AGE_MS := 5_000
  const MAX_FALLBACK_PAGE_ITEMS := 256
  const PATHS: seq<Resource> := [Info, Orders, Positions]

  // ----- Replies -----

  datatype ListPage = ListPage(wellFormed: bool, more: bool, count: int)

  /** A decoded reply body: the account with what it is checked for, or a list with its rows counted. */
  datatype Body =
    | AccountBody(wellFormed: bool, ok: bool, matches: bool, active: bool, data: nat)
    | ListBody(wellFormed: bool, ok: bool, rows: nat, page: Option<ListPage>)

  datatype Reply = Reply(wellFormed: bool, transportFixed: bool, statusOk: bool, sameUrl: bool, observedAt: int, body: Body)

  /** What two fallback rounds must agree on. */
  datatype Canonical = AccountSnapshot(data: nat) | ListSnapshot(count: int)

  function PresentReason(resource: Resource): string {
    if resource.Orders? then "REST_OPEN_ORDER_PRESENT" else "REST_POSITION_PRESENT"
  }

  function ValidateAccount(body: Body): Result<Canonical, string> {
    var _ :- Need(body.AccountBody? && body.wellFormed, "REST_WRAPPER_MALFORMED");
    var _ :- Need(body.ok, "REST_RESPONSE_ERROR");
    var _ :- Need(body.matches, "ACCOUNT_IDENTITY_MISMATCH");
    var _ :- Need(body.active, "ACCOUNT_INACTIVE");
    Ok(AccountSnapshot(body.data))
  }

  function ValidateList(body: Body, resource: Resource): Result<Canonical, string> {
    var _ :- Need(body.ListBody? && body.wellFormed, "REST_WRAPPER_MALFORMED");
    var _ :- Need(body.ok, "REST_RESPONSE_ERROR");
    var _ :- Need(body.page.Some? ==> body.page.value.wellFormed, "REST_PAGINATION_INVALID");
    var _ :- Need(body.page.Some? ==> !body.page.value.more, "REST_PAGINATION_INCOMPLETE");
    var _ :- Need(body.page.Some? ==> body.page.value.count == body.rows, "REST_PAGINATION_INVALID");
    var _ :- Need(body.rows == 0, PresentReason(resource));
    Ok(ListSnapshot(0))
  }

  /** The fallback's own list check: a list without pagination must be empty, and a page is bounded. */
  function ValidateFallbackList(body: Body, resource: Resource): Result<Canonical, string> {
    var _ :- Need(body.ListBody? && body.wellFormed, "REST_WRAPPER_MALFORMED");
    var _ :- Need(body.ok, "REST_RESPONSE_ERROR");
    if body.page.None? then
      var _ :- Need(body.rows == 0, "REST_PAGINATION_INCOMPLETE");
      Ok(ListSnapshot(0))
    else
      var page := body.page.value;
      var _ :- Need(page.wellFormed, "REST_PAGINATION_INVALID");
      var _ :- Need(!page.more, "REST_PAGINATION_INCOMPLETE");
      var _ :- Need(0 <= page.count <= MAX_FALLBACK_PAGE_ITEMS && page.count == body.rows, "REST_PAGINATION_INVALID");
      var _ :- Need(body.rows == 0, PresentReason(resource));
      Ok(ListSnapshot(page.count))
  }

  function ValidateBody(body: Body, resource: Resource, mode: Mode): Result<Canonical, string> {
    if resource.Info? then ValidateAccount(body)
    else if mode.StreamMode? then ValidateList(body, resource)
    else ValidateFallbackList(body, resource)
  }

  /** Both modes accept the same bodies, and a list only when it is empty. */
  lemma ModesAcceptAlike(body: Body, resource: Resource)
    ensures ValidateBody(body, resource, StreamMode).Ok? <==> ValidateBody(body, resource, RestFallbackMode).Ok?
    ensures forall mode: Mode :: ValidateBody(body, resource, mode).Ok? ==>
      ValidateBody(body, resource, mode).value == if resource.Info? then AccountSnapshot(body.data) else ListSnapshot(0)
    ensures forall mode: Mode :: ValidateBody(body, resource, mode).Ok? && !resource.Info? ==> body.ListBody? && body.rows == 0
    ensures forall mode: Mode :: ValidateBody(body, resource, mode).Err? ==> ValidateBody(body, resource, mode).error != ""
  {
  }

  function ValidateReply(reply: Reply): Result<(), string> {
    var _ :- Need(reply.wellFormed, "REST_REPLY_MALFORMED");
    var _ :- Need(reply.transportFixed, "TRANSPORT_CONTRACT_MISMATCH");
    var _ :- Need(reply.statusOk, "REST_HTTP_STATUS");
    Need(reply.sameUrl, "REST_REDIRECT_FORBIDDEN")
  }

  /** A stream frame: refused for its content, or with its sequence number. */
  datatype Frame = RefusedFrame | SoundFrame(sequence: nat)

  datatype Barrier = Barrier(wellFormed: bool, transportFixed: bool, observedAt: int, connected: bool, sameConnection: bool,
                             nothingSent: bool, noReconnect: bool, frames: Option<seq<Frame>>)

  /** What the stream object says of itself. */
  datatype StreamState = StreamState(transportFixed: bool, nothingSent: bool, noReconnect: bool, closed: bool)

  predicate Consecutive(sequences: seq<int>) {
    forall i | 0 < i < |sequences| :: sequences[i] == sequences[i - 1] + 1
  }

  predicate AllAfter(later: seq<int>, earlier: seq<int>) {
    forall b <- later, a <- earlier :: a < b
  }

  /** A request that was answered. */
  datatype Exchange = Exchange(effect: Effect, reply: Reply)

  /** A complete round: the active account of the credential, no open order and no position. */
  ghost predicate RoundProven(exchanges: seq<Exchange>, round: Round, mode: Mode) {
    && |exchanges| == |PATHS|
    && forall k | 0 <= k < |PATHS| :: Proven(exchanges[k], round, PATHS[k], mode)
  }

  ghost predicate Proven(exchange: Exchange, round: Round, resource: Resource, mode: Mode) {
    && exchange.effect == Rest(round, resource) && ValidateReply(exchange.reply).Ok?
    && ValidateBody(exchange.reply.body, resource, mode).Ok?
  }

  /** Both rounds are complete, and every observation of the second is later than every one of the first. */
  ghost predicate RoundsProven(exchanges: seq<Exchange>, mode: Mode) {
    && |exchanges| == 6
    && RoundProven(exchanges[..3], RoundA, mode) && RoundProven(exchanges[3..], RoundB, mode)
    && AllAfter(InstantsOf(exchanges[3..]), InstantsOf(exchanges[..3]))
  }

  /** The barrier of the same silent connection, not before the second round. */
  ghost predicate BarrierProven(barrier: Barrier, roundB: seq<int>) {
    && barrier.wellFormed && barrier.transportFixed && barrier.connected && barrier.sameConnection && barrier.nothingSent
    && barrier.noReconnect && barrier.frames.Some? && forall o <- roundB :: o <= barrier.observedAt
  }

  function InstantsOf(exchanges: seq<Exchange>): (times: seq<int>)
    ensures |times| == |exchanges| && forall k | 0 <= k < |exchanges| :: times[k] == exchanges[k].reply.observedAt
  {
    if exchanges == [] then [] else InstantsOf(exchanges[..|exchanges| - 1]) + [exchanges[|exchanges| - 1].reply.observedAt]
  }

  // ----- The outside world -----

  /** Credentials, clock, REST endpoint and private stream. Every effect may fail, be cancelled or die before or after it has acted. */
  class Outside {
    ghost var performed: seq<Effect>
    ghost var exchanges: seq<Exchange>
    ghost var barriers: seq<Barrier>

    constructor ()
      ensures performed == [] && exchanges == [] && barriers == []
    {
      performed, exchanges, barriers := [], [], [];
    }

    /** `CONNECTION` stands for the connection and operating-system errors, `STREAM_STOPPED` for the end of the stream. */
    ghost predicate Happened(before: seq<Effect>, effect: Effect)
      reads this
    {
      performed == before || performed == before + [effect]
    }

    method Fail() returns (f: Fate<()>)
      ensures f.Raised? ==> f.code in {"CANCELLED", "CONNECTION", "STREAM_STOPPED", "UNEXPECTED_FAILURE"}
    {
      if * { return Crashed; }
      if * { return Fate.Raised("CANCELLED"); }
      if * { return Fate.Raised("CONNECTION"); }
      if * { return Fate.Raised("STREAM_STOPPED"); }
      if * { return Fate.Raised("UNEXPECTED_FAILURE"); }
      return Done(());
    }

    method Act(ghost effect: Effect) returns (f: Fate<()>)
      modifies this
      ensures Happened(old(performed), effect) && exchanges == old(exchanges) && barriers == old(barriers)
      ensures f.Raised? ==> f.code in {"CANCELLED", "CONNECTION", "STREAM_STOPPED", "UNEXPECTED_FAILURE"}
    {
      if * { return Crashed; }
      performed := performed + [effect];
      f := Fail();
    }

    method Get(ghost effect: Effect) returns (f: Fate<Reply>)
      modifies this
      ensures Happened(old(performed), effect)
      ensures exchanges == old(exchanges) + (if f.Done? then [Exchange(effect, f.value)] else []) && barriers == old(barriers)
      ensures f.Raised? ==> f.code in {"CANCELLED", "CONNECTION", "STREAM_STOPPED", "UNEXPECTED_FAILURE"}
    {
      var sent := Act(effect);
      if !sent.Done? { return sent.PropagateFailure(); }
      var reply: Reply := *;
      exchanges := exchanges + [Exchange(effect, reply)];
      return Done(reply);
    }

    method AskBarrier() returns (f: Fate<Barrier>)
      modifies this
      ensures Happened(old(performed), BarrierRequest) && exchanges == old(exchanges)
      ensures barriers == old(barriers) + if f.Done? then [f.value] else []
      ensures f.Raised? ==> f.code in {"CANCELLED", "CONNECTION", "STREAM_STOPPED", "UNEXPECTED_FAILURE"}
    {
      var asked := Act(BarrierRequest);
      if !asked.Done? { return asked.PropagateFailure(); }
      var barrier: Barrier := *;
      barriers := barriers + [barrier];
      return Done(barrier);
    }

    method ClockMs() returns (f: Fate<int>)
      ensures f.Raised? ==> f.code != ""
    {
      if * { return Crashed; }
      if * { return Fate.Raised("UNEXPECTED_FAILURE"); }
      var now: int := *;
      return Done(now);
    }
  }

  // ----- The reader -----

  /** Exactly these effects are attempted and completed. */
  ghost predicate Exactly(counters: Counters, finished: set<Effect>) {
    forall effect: Effect :: Of(counters, effect) == if effect in finished then Pair(1, 1) else Pair(0, 0)
  }

  lemma OneMore(counters: Counters, finished: set<Effect>, effect: Effect)
    requires Exactly(counters, finished) && effect !in finished
    ensures Exactly(Completed(Attempted(counters, effect), effect), finished + {effect})
  {
  }

  ghost function RoundEffects(round: Round): set<Effect> {
    {Rest(round, Info), Rest(round, Orders), Rest(round, Positions)}
  }

  /** Exceptions the source does not classify are one reason. */
  function Unclassified(code: string): string {
    if code == "CANCELLED" then code else "UNEXPECTED_FAILURE"
  }

  function StreamFailure(code: string): string {
    if code == "STREAM_STOPPED" then "STREAM_ENDED_EARLY"
    else if code == "CONNECTION" then "STREAM_DISCONNECTED"
    else Unclassified(code)
  }

  class PrivateReader {
    const store: OperationalStore
    const outside: Outside
    const mode: Mode
    var restCalls: nat
    var streamFrames: nat
    var clockCalls: nat
    var previousCurrent: Option<int>
    var previousSequence: Option<int>
    ghost var accepted: seq<int>

    constructor (store: OperationalStore, outside: Outside, mode: Mode)
      ensures this.store == store && this.outside == outside && this.mode == mode
      ensures restCalls == 0 && streamFrames == 0 && clockCalls == 0 && Framed() && accepted == []
    {
      this.store, this.outside, this.mode := store, outside, mode;
      restCalls, streamFrames, clockCalls, previousCurrent, previousSequence := 0, 0, 0, None, None;
      accepted := [];
    }

    /** The frames accepted so far are one unbroken sequence, and all of them are counted. */
    ghost predicate Framed()
      reads this
    {
      && Consecutive(accepted) && |accepted| <= streamFrames
      && previousSequence == if accepted == [] then None else Some(accepted[|accepted| - 1])
    }

    /** The run is open and everything that happened was written down first. */
    ghost predicate Open()
      reads store, outside
    {
      && store.row.Some? && store.row.value.state.Running? && store.row.value.mode == mode
      && LedgerOk(store.row, outside.performed) && Of(store.row.value.counters, TerminalPersistence) == Pair(0, 0)
    }

    method Attempt(effect: Effect) returns (f: Fate<()>)
      requires Open() && !effect.TerminalPersistence?
      modifies store
      ensures Open()
      ensures f.Done? ==> store.row.value.counters == Attempted(old(store.row.value.counters), effect)
      ensures f.Done? ==> LedgerOk(store.row, outside.performed + [effect])
      ensures f.Raised? ==> f.code != ""
    {
      hide LedgerOk;
      ghost var before := store.row.value;
      f := store.Increment(effect, false);
      if store.row != Some(before) || f.Done? {
        IncrementOk(before, outside.performed, effect, false);
        PerformOk(store.row.value, outside.performed, effect);
      }
    }

    method Complete(effect: Effect) returns (f: Fate<()>)
      requires Open() && !effect.TerminalPersistence?
      modifies store
      ensures Open()
      ensures f.Done? ==> store.row.value.counters == Completed(old(store.row.value.counters), effect)
      ensures f.Raised? ==> f.code != ""
    {
      hide LedgerOk;
      ghost var before := store.row.value;
      f := store.Increment(effect, true);
      if store.row != Some(before) || f.Done? {
        IncrementOk(before, outside.performed, effect, true);
      }
    }

    /** One clock reading, not before the last one and at most five seconds after the observation. */
    method FreshCurrent(observed: int) returns (f: Fate<int>)
      modifies this`clockCalls, this`previousCurrent
      ensures clockCalls == old(clockCalls) + 1
      ensures f.Done? ==> 0 <= observed <= f.value <= observed + MAX_OBSERVATION_AGE_MS && previousCurrent == Some(f.value)
      ensures f.Done? && old(previousCurrent).Some? ==> old(previousCurrent).value <= f.value
      ensures f.Raised? ==> f.code != ""
    {
      clockCalls := clockCalls + 1;
      var current := outside.ClockMs();
      if !current.Done? { return current; }
      if current.value < 0 || observed < 0 { return Fate.Raised("CLOCK_EVIDENCE_INVALID"); }
      if previousCurrent.Some? && current.value < previousCurrent.value { return Fate.Raised("CLOCK_REGRESSION"); }
      previousCurrent := Some(current.value);
      if observed > current.value { return Fate.Raised("EVIDENCE_FROM_FUTURE"); }
      if current.value - observed > MAX_OBSERVATION_AGE_MS { return Fate.Raised("EVIDENCE_STALE"); }
      return current;
    }

    method LoadApiKey() returns (f: Fate<()>)
      requires Open()
      modifies store, outside
      ensures Open()
      ensures f.Done? ==> store.row.value.counters == Completed(Attempted(old(store.row.value.counters), Loader), Loader)
      ensures outside.exchanges == old(outside.exchanges) && outside.barriers == old(outside.barriers)
      ensures f.Raised? ==> f.code != ""
    {
      hide LedgerOk, Attempted, Completed;
      var _ :- Attempt(Loader);
      var loaded := outside.Act(Loader);
      if loaded.Raised? { return Fate.Raised(Unclassified(loaded.code)); }
      var _ :- loaded;
      if * { return Fate.Raised("CREDENTIAL_INVALID"); }
      f := Complete(Loader);
    }

    // ----- REST rounds -----

    /** One request: counted, written down, sent once, checked, and only then completed. */
    method ReadOne(round: Round, resource: Resource) returns (f: Fate<(int, Canonical)>)
      requires Open()
      modifies store, outside, this`restCalls, this`clockCalls, this`previousCurrent
      ensures Open()
      ensures f.Done? ==> var effect := Rest(round, resource);
        store.row.value.counters == Completed(Attempted(old(store.row.value.counters), effect), effect)
      ensures outside.barriers == old(outside.barriers)
      ensures f.Done? ==> restCalls == old(restCalls) + 1 && clockCalls == old(clockCalls) + 1 && f.value.0 >= 0
      ensures f.Done? ==> |outside.exchanges| == |old(outside.exchanges)| + 1 && old(outside.exchanges) <= outside.exchanges
      ensures f.Done? ==> var last := outside.exchanges[|outside.exchanges| - 1];
        && Proven(last, round, resource, mode) && f.value.0 == last.reply.observedAt
        && f.value.1 == (if resource.Info? then AccountSnapshot(last.reply.body.data) else ListSnapshot(0))
      ensures f.Raised? ==> f.code != ""
    {
      hide LedgerOk, Attempted, Completed, ValidateBody;
      var effect := Rest(round, resource);
      restCalls := restCalls + 1;
      var _ :- Attempt(effect);
      var answered := outside.Get(effect);
      if answered.Raised? {
        return Fate.Raised(if mode.RestFallbackMode? && answered.code == "CONNECTION" then "TRANSPORT" else Unclassified(answered.code));
      }
      var reply :- answered;
      var shape := ValidateReply(reply);
      var _ :- Lift(shape);
      var _ :- FreshCurrent(reply.observedAt);
      ModesAcceptAlike(reply.body, resource);
      var canonical :- Lift(ValidateBody(reply.body, resource, mode));
      var _ :- Complete(effect);
      return Done((reply.observedAt, canonical));
    }

    /** The three requests of one round, in order. */
    method RestRound(round: Round, ghost finished: set<Effect>) returns (f: Fate<(seq<int>, seq<Canonical>)>)
      requires Open() && Exactly(store.row.value.counters, finished) && finished !! RoundEffects(round)
      modifies store, outside, this`restCalls, this`clockCalls, this`previousCurrent
      ensures Open() && outside.barriers == old(outside.barriers)
      ensures f.Done? ==> restCalls == old(restCalls) + 3 && clockCalls == old(clockCalls) + 3
      ensures f.Done? ==> |outside.exchanges| == |old(outside.exchanges)| + 3 && old(outside.exchanges) <= outside.exchanges
      ensures f.Done? ==> var replies := outside.exchanges[|old(outside.exchanges)|..];
        RoundProven(replies, round, mode) && f.value.0 == InstantsOf(replies) && f.value.1 == Snapshots(replies)
      ensures f.Done? ==> Exactly(store.row.value.counters, finished + RoundEffects(round))
      ensures f.Raised? ==> f.code != ""
    {
      hide LedgerOk, Attempted, Completed, Exactly;
      hide Proven;
      ghost var now, read: seq<Exchange> := finished, [];
      var observations, snapshots := [], [];
      for k := 0 to |PATHS|
        invariant Open() && outside.barriers == old(outside.barriers)
        invariant restCalls == old(restCalls) + k && clockCalls == old(clockCalls) + k
        invariant outside.exchanges == old(outside.exchanges) + read && |read| == k && observations == InstantsOf(read)
        invariant snapshots == Snapshots(read) && forall i | 0 <= i < k :: Proven(read[i], round, PATHS[i], mode)
        invariant Exactly(store.row.value.counters, now) && now == finished + EffectsOf(round, k)
      {
        ghost var before := store.row.value.counters;
        var one :- ReadOne(round, PATHS[k]);
        NotYet(round, k);
        OneMore(before, now, Rest(round, PATHS[k]));
        now := now + {Rest(round, PATHS[k])};
        observations, snapshots := observations + [one.0], snapshots + [one.1];
        ghost var last := outside.exchanges[|outside.exchanges| - 1];
        assert (read + [last])[..k] == read;
        AccountFirst(last, round, PATHS[k], mode);
        read := read + [last];
        assert outside.exchanges == old(outside.exchanges) + read;
      }
      WholeRound(round);
      assert outside.exchanges[|old(outside.exchanges)|..] == read;
      return Done((observations, snapshots));
    }

    method LowestOf(observations: seq<int>) returns (lowest: int)
      requires observations != []
      ensures lowest in observations && forall o <- observations :: lowest <= o
    {
      lowest := observations[0];
      for k := 1 to |observations|
        invariant lowest in observations && forall i | 0 <= i < k :: lowest <= observations[i]
      {
        if observations[k] < lowest { lowest := observations[k]; }
      }
    }

    method HighestOf(observations: seq<int>) returns (highest: int)
      requires observations != []
      ensures highest in observations && forall o <- observations :: o <= highest
    {
      highest := observations[0];
      for k := 1 to |observations|
        invariant highest in observations && forall i | 0 <= i < k :: observations[i] <= highest
      {
        if observations[k] > highest { highest := observations[k]; }
      }
    }

    // ----- The stream -----

    /** Count a frame, then refuse it or take its number, which must follow the last one. */
    method AcceptFrame(frame: Frame) returns (f: Fate<()>)
      requires Framed()
      modifies this`streamFrames, this`previousSequence, this`accepted
      ensures Framed() && old(accepted) <= accepted
      ensures f.Done? ==> streamFrames - |accepted| == old(streamFrames - |accepted|)
      ensures !f.Crashed? && (f.Raised? ==> f.code != "")
    {
      streamFrames := streamFrames + 1;
      if frame.RefusedFrame? { return Fate.Raised("STREAM_MALFORMED_FRAME"); }
      if previousSequence.Some? {
        var previous := previousSequence.value;
        if frame.sequence == previous { return Fate.Raised("STREAM_SEQUENCE_DUPLICATE"); }
        if frame.sequence < previous { return Fate.Raised("STREAM_SEQUENCE_REGRESSION"); }
        if frame.sequence != previous + 1 { return Fate.Raised("STREAM_SEQUENCE_GAP"); }
      }
      previousSequence := Some(frame.sequence);
      accepted := accepted + [frame.sequence];
      return Done(());
    }

    method AcceptFrames(frames: seq<Frame>) returns (f: Fate<()>)
      requires Framed()
      modifies this`streamFrames, this`previousSequence, this`accepted
      ensures Framed() && old(accepted) <= accepted
      ensures f.Done? ==> streamFrames - |accepted| == old(streamFrames - |accepted|)
      ensures !f.Crashed? && (f.Raised? ==> f.code != "")
    {
      for k := 0 to |frames|
        invariant Framed() && old(accepted) <= accepted && streamFrames - |accepted| == old(streamFrames - |accepted|)
      {
        var _ :- AcceptFrame(frames[k]);
      }
      return Done(());
    }

    /** The consumer: frames as they come, until the stream ends; only the barrier may end it. */
    method ConsumeStream() returns (f: Fate<()>)
      requires Framed()
      modifies this`streamFrames, this`previousSequence, this`accepted
      ensures Framed() && old(accepted) <= accepted
      ensures f.Done? ==> streamFrames - |accepted| == old(streamFrames - |accepted|)
      ensures f.Raised? ==> f.code != ""
    {
      var frames: seq<Frame> := *;
      var _ :- AcceptFrames(frames);
      var ended := outside.Fail();
      if ended.Raised? && ended.code != "STREAM_STOPPED" { return Fate.Raised(StreamFailure(ended.code)); }
      if ended.Crashed? { return Crashed; }
      var barrierComplete: bool := *;
      if !barrierComplete { return Fate.Raised("STREAM_ENDED_EARLY"); }
      return Done(());
    }

    method CheckSurface(transport: bool, unusedIfClosed: bool) returns (f: Fate<()>)
      ensures !f.Crashed? && (f.Raised? ==> f.code != "")
    {
      var state: StreamState := *;
      if transport && !state.transportFixed { return Fate.Raised("TRANSPORT_CONTRACT_MISMATCH"); }
      if unusedIfClosed && state.closed { return Fate.Raised("STREAM_ENDED_EARLY"); }
      if !state.nothingSent { return Fate.Raised("STREAM_OUTBOUND_FORBIDDEN"); }
      if !state.noReconnect { return Fate.Raised("STREAM_RECONNECT_FORBIDDEN"); }
      return Done(());
    }

    method Upgrade() returns (f: Fate<()>)
      requires Open()
      modifies store
      ensures Open()
      ensures f.Done? ==>
        store.row.value.counters == Completed(Attempted(old(store.row.value.counters), StreamUpgrade), StreamUpgrade)
      ensures f.Raised? ==> f.code != ""
    {
      hide LedgerOk, Attempted, Completed;
      var _ :- Attempt(StreamUpgrade);
      var _ :- CheckSurface(true, false);
      f := Complete(StreamUpgrade);
    }

    /** The second round while the consumer runs. When the consumer ends first the round is cancelled wherever it is. */
    method RoundUnderStream(ghost finished: set<Effect>) returns (f: Fate<(seq<int>, seq<Canonical>)>)
      requires Open() && Framed() && Exactly(store.row.value.counters, finished) && finished !! RoundEffects(RoundB)
      modifies store, outside, this
      ensures Open() && Framed() && old(accepted) <= accepted
      ensures outside.barriers == old(outside.barriers)
      ensures f.Done? ==> restCalls == old(restCalls) + 3 && clockCalls == old(clockCalls) + 3
      ensures f.Done? ==> |outside.exchanges| == |old(outside.exchanges)| + 3 && old(outside.exchanges) <= outside.exchanges
      ensures f.Done? ==> var replies := outside.exchanges[|old(outside.exchanges)|..];
        RoundProven(replies, RoundB, mode) && f.value.0 == InstantsOf(replies)
      ensures f.Done? ==> streamFrames == old(streamFrames) && accepted == old(accepted)
      ensures f.Done? ==> Exactly(store.row.value.counters, finished + RoundEffects(RoundB))
      ensures f.Raised? ==> f.code != ""
    {
      hide LedgerOk, Exactly;
      var consumerFirst: bool := *;
      f := RestRound(RoundB, finished);
      if f.Crashed? || (f.Done? && !consumerFirst) { return; }
      var consumed := ConsumeStream();
      if consumed.Crashed? { return Crashed; }
      if !consumerFirst || (f.Raised? && f.code != "CANCELLED") { return; }
      return Fate.Raised(if consumed.Raised? then consumed.code else "STREAM_ENDED_EARLY");
    }

    method RequestBarrier() returns (f: Fate<Barrier>)
      requires Open()
      modifies store, outside
      ensures Open()
      ensures outside.exchanges == old(outside.exchanges)
      ensures f.Done? ==> f.value.wellFormed && outside.barriers == old(outside.barriers) + [f.value]
      ensures f.Done? ==> store.row.value.counters == Completed(Attempted(old(store.row.value.counters), BarrierRequest), BarrierRequest)
      ensures f.Raised? ==> f.code != ""
    {
      hide LedgerOk, Attempted, Completed;
      var _ :- Attempt(BarrierRequest);
      var asked := outside.AskBarrier();
      if asked.Raised? { return Fate.Raised(StreamFailure(asked.code)); }
      var barrier :- asked;
      var _ :- Complete(BarrierRequest);
      if !barrier.wellFormed { return Fate.Raised("STREAM_BARRIER_UNVERIFIABLE"); }
      return Done(barrier);
    }

    /** The barrier is fresh, on the same silent connection, not before the second round, and its frames follow the consumed ones. */
    method ValidateBarrier(barrier: Barrier, roundB: seq<int>) returns (f: Fate<()>)
      requires Open() && Framed() && roundB != []
      modifies store, this
      ensures Open() && Framed() && old(accepted) <= accepted && restCalls == old(restCalls)
      ensures f.Done? ==>
        store.row.value.counters == Completed(Attempted(old(store.row.value.counters), BarrierValidation), BarrierValidation)
      ensures f.Done? ==> clockCalls == old(clockCalls) + 1 && streamFrames - |accepted| == old(streamFrames - |accepted|)
      ensures f.Done? && barrier.wellFormed ==> BarrierProven(barrier, roundB)
      ensures f.Raised? ==> f.code != ""
    {
      hide LedgerOk, Attempted, Completed;
      var _ :- Attempt(BarrierValidation);
      if !barrier.transportFixed { return Fate.Raised("TRANSPORT_CONTRACT_MISMATCH"); }
      var _ :- FreshCurrent(barrier.observedAt);
      var latest := HighestOf(roundB);
      if barrier.observedAt < latest { return Fate.Raised("STREAM_BARRIER_TIME_INVALID"); }
      if !barrier.connected || !barrier.sameConnection { return Fate.Raised("STREAM_ENDED_EARLY"); }
      if !barrier.nothingSent { return Fate.Raised("STREAM_OUTBOUND_FORBIDDEN"); }
      if !barrier.noReconnect { return Fate.Raised("STREAM_RECONNECT_FORBIDDEN"); }
      if barrier.frames.None? { return Fate.Raised("STREAM_BARRIER_UNVERIFIABLE"); }
      var _ :- ConsumeStream();
      var _ :- AcceptFrames(barrier.frames.value);
      var _ :- CheckSurface(false, true);
      f := Complete(BarrierValidation);
    }

    /** The second round, every observation of it later than all of the first. */
    method LaterRound(roundA: seq<int>, ghost finished: set<Effect>) returns (f: Fate<seq<int>>)
      requires Open() && Framed() && Exactly(store.row.value.counters, finished) && finished !! RoundEffects(RoundB)
      requires RoundProven(outside.exchanges, RoundA, mode) && roundA == InstantsOf(outside.exchanges)
      modifies store, outside, this
      ensures Open() && Framed() && outside.barriers == old(outside.barriers)
      ensures f.Done? ==> restCalls == old(restCalls) + 3 && clockCalls == old(clockCalls) + 3
      ensures f.Done? ==> RoundsProven(outside.exchanges, mode) && f.value == InstantsOf(outside.exchanges[3..]) && f.value != []
      ensures f.Done? ==> Exactly(store.row.value.counters, finished + RoundEffects(RoundB))
      ensures f.Done? ==> streamFrames == old(streamFrames) && accepted == old(accepted)
      ensures f.Raised? ==> f.code != ""
    {
      hide LedgerOk, Exactly, RoundProven;
      RoundLength(outside.exchanges, RoundA, mode);
      var roundB :- RoundUnderStream(finished);
      assert outside.exchanges[..3] == old(outside.exchanges);
      RoundLength(outside.exchanges[3..], RoundB, mode);
      var first := LowestOf(roundB.0);
      var last := HighestOf(roundA);
      if first <= last { return Fate.Raised("REST_ROUNDS_NOT_ORDERED"); }
      return Done(roundB.0);
    }

    /** Everything between opening and closing the stream. */
    method ReadUnderStream(roundA: seq<int>, ghost finished: set<Effect>) returns (f: Fate<()>)
      requires Open() && Framed() && Exactly(store.row.value.counters, finished) && outside.barriers == []
      requires RoundProven(outside.exchanges, RoundA, mode) && roundA == InstantsOf(outside.exchanges)
      requires finished !! UnderStream()
      modifies store, outside, this
      ensures Open() && Framed()
      ensures f.Done? ==> Exactly(store.row.value.counters, finished + UnderStream())
      ensures f.Done? ==> restCalls == old(restCalls) + 3 && clockCalls == old(clockCalls) + 4
      ensures f.Done? ==> RoundsProven(outside.exchanges, mode) && |outside.barriers| == 1
      ensures f.Done? ==> BarrierProven(outside.barriers[0], InstantsOf(outside.exchanges[3..]))
      ensures f.Done? ==> streamFrames - |accepted| == old(streamFrames - |accepted|)
      ensures f.Raised? ==> f.code != ""
    {
      hide LedgerOk, Attempted, Completed, Exactly, RoundProven, RoundsProven, BarrierProven;
      ghost var now, before := finished, store.row.value.counters;
      var _ :- Upgrade();
      OneMore(before, now, StreamUpgrade);
      now := now + {StreamUpgrade};
      var roundB :- LaterRound(roundA, now);
      now, before := now + RoundEffects(RoundB), store.row.value.counters;
      var barrier :- RequestBarrier();
      OneMore(before, now, BarrierRequest);
      now, before := now + {BarrierRequest}, store.row.value.counters;
      f := ValidateBarrier(barrier, roundB);
      if f.Done? {
        OneMore(before, now, BarrierValidation);
        assert now + {BarrierValidation} == finished + UnderStream();
      }
    }

    method CloseStream() returns (f: Fate<()>)
      requires Open()
      modifies store, outside
      ensures Open()
      ensures f.Done? ==> store.row.value.counters == Completed(Attempted(old(store.row.value.counters), StreamClose), StreamClose)
      ensures outside.exchanges == old(outside.exchanges) && outside.barriers == old(outside.barriers)
      ensures f.Raised? ==> f.code != ""
    {
      hide LedgerOk, Attempted, Completed;
      var _ :- Attempt(StreamClose);
      var closed := outside.Act(StreamClose);
      if closed.Raised? { return Fate.Raised(if closed.code == "CANCELLED" then closed.code else "STREAM_CLOSE_FAILED"); }
      var _ :- closed;
      var state: StreamState := *;
      if !state.closed { return Fate.Raised("STREAM_CLOSE_FAILED"); }
      f := Complete(StreamClose);
    }

    method OpenStream() returns (f: Fate<()>)
      requires Open()
      modifies store, outside
      ensures Open()
      ensures f.Done? ==> store.row.value.counters == Completed(Attempted(old(store.row.value.counters), StreamOpen), StreamOpen)
      ensures outside.exchanges == old(outside.exchanges) && outside.barriers == old(outside.barriers)
      ensures f.Raised? ==> f.code != ""
    {
      hide LedgerOk, Attempted, Completed;
      var _ :- Attempt(StreamOpen);
      var connected := outside.Act(StreamOpen);
      if connected.Raised? { return Fate.Raised(Unclassified(connected.code)); }
      var _ :- connected;
      f := Complete(StreamOpen);
    }

    // ----- The two reads -----

    /** The key, the first round and the open stream. */
    method OpenUnderRound() returns (f: Fate<seq<int>>)
      requires Open() && restCalls == clockCalls == 0 && Exactly(store.row.value.counters, {})
      requires outside.exchanges == [] && outside.barriers == []
      modifies store, outside, this`restCalls, this`clockCalls, this`previousCurrent
      ensures Open()
      ensures outside.barriers == []
      ensures f.Done? ==> Exactly(store.row.value.counters, Opening()) && restCalls == clockCalls == 3
      ensures f.Done? ==> RoundProven(outside.exchanges, RoundA, mode) && f.value == InstantsOf(outside.exchanges)
      ensures f.Raised? ==> f.code != ""
    {
      hide LedgerOk, Attempted, Completed, Exactly;
      ghost var before := store.row.value.counters;
      var _ :- LoadApiKey();
      OneMore(before, {}, Loader);
      ghost var now: set<Effect> := {} + {Loader};
      var roundA :- RestRound(RoundA, now);
      now, before := now + RoundEffects(RoundA), store.row.value.counters;
      assert outside.exchanges[0..] == outside.exchanges;
      var _ :- OpenStream();
      OneMore(before, now, StreamOpen);
      assert now + {StreamOpen} == Opening();
      return Done(roundA.0);
    }

    /** Success leaves every effect done once, six requests, seven clock readings, and only unbroken frames counted. */
    method Execute() returns (f: Fate<()>)
      requires mode.StreamMode? && Open() && Framed() && accepted == [] && restCalls == streamFrames == clockCalls == 0
      requires Exactly(store.row.value.counters, {}) && outside.exchanges == [] && outside.barriers == []
      modifies store, outside, this
      ensures Open() && Framed()
      ensures f.Done? ==> forall effect: Effect ::
        Of(store.row.value.counters, effect) == if effect.TerminalPersistence? then Pair(0, 0) else Pair(1, 1)
      ensures f.Done? ==> restCalls == 6 && clockCalls == 7 && streamFrames == |accepted|
      ensures f.Done? ==> RoundsProven(outside.exchanges, StreamMode) && |outside.barriers| == 1
      ensures f.Done? ==> BarrierProven(outside.barriers[0], InstantsOf(outside.exchanges[3..]))
      ensures f.Raised? ==> f.code != ""
    {
      hide LedgerOk, Attempted, Completed, Exactly;
      var roundA :- OpenUnderRound();
      OpeningOnly();
      hide Opening, UnderStream;
      var body := ReadUnderStream(roundA, Opening());
      if body.Crashed? { return Crashed; }
      ghost var before := store.row.value.counters;
      var closed := CloseStream();
      if closed.Crashed? { return Crashed; }
      if closed.Raised? && closed.code == "CANCELLED" { return closed; }
      if closed.Raised? && body.Done? { return Fate.Raised("STREAM_CLOSE_FAILED"); }
      if body.Raised? { return body; }
      OneMore(before, Opening() + UnderStream(), StreamClose);
      AllDone(store.row.value.counters);
      return Done(());
    }

    /** Success leaves exactly the fallback's effects done once, six requests, six clock readings and no frame. */
    method ExecuteRestFallback() returns (f: Fate<()>)
      requires mode.RestFallbackMode? && Open() && Framed() && accepted == [] && restCalls == streamFrames == clockCalls == 0
      requires Exactly(store.row.value.counters, {}) && outside.exchanges == [] && outside.barriers == []
      modifies store, outside, this`restCalls, this`clockCalls, this`previousCurrent
      ensures Open() && Framed()
      ensures f.Done? ==> forall effect: Effect ::
        Of(store.row.value.counters, effect) == if effect.InFallback() && !effect.TerminalPersistence? then Pair(1, 1) else Pair(0, 0)
      ensures f.Done? ==> restCalls == 6 && clockCalls == 6 && streamFrames == 0
      ensures f.Done? ==> RoundsProven(outside.exchanges, RestFallbackMode)
      ensures f.Done? ==> Snapshots(outside.exchanges[..3]) == Snapshots(outside.exchanges[3..])
      ensures f.Raised? ==> f.code != ""
    {
      hide LedgerOk, Attempted, Completed, Exactly;
      hide RoundProven;
      ghost var before := store.row.value.counters;
      var _ :- LoadApiKey();
      OneMore(before, {}, Loader);
      ghost var now: set<Effect> := {} + {Loader};
      var roundA :- RestRound(RoundA, now);
      now := now + RoundEffects(RoundA);
      ghost var first3 := outside.exchanges;
      assert first3[0..] == first3;
      var roundB :- RestRound(RoundB, now);
      now := now + RoundEffects(RoundB);
      assert outside.exchanges[..3] == first3;
      RoundLength(first3, RoundA, mode);
      RoundLength(outside.exchanges[3..], RoundB, mode);
      var first := LowestOf(roundB.0);
      var last := HighestOf(roundA.0);
      if first <= last { return Fate.Raised("REST_ROUNDS_NOT_ORDERED"); }
      if roundA.1 != roundB.1 { return Fate.Raised("REST_ROUNDS_DISAGREE"); }
      FallbackDone(store.row.value.counters, now);
      return Done(());
    }
  }

  /** What the replies of a round reduce to: the account's data, and nothing in the lists. */
  function Snapshots(exchanges: seq<Exchange>): seq<Canonical> {
    if exchanges == [] then []
    else
      var last := exchanges[|exchanges| - 1];
      Snapshots(exchanges[..|exchanges| - 1])
      + [if last.reply.body.AccountBody? then AccountSnapshot(last.reply.body.data) else ListSnapshot(0)]
  }

  lemma RoundLength(exchanges: seq<Exchange>, round: Round, mode: Mode)
    requires RoundProven(exchanges, round, mode)
    ensures |exchanges| == 3
  {
  }

  lemma AccountFirst(exchange: Exchange, round: Round, resource: Resource, mode: Mode)
    requires Proven(exchange, round, resource, mode)
    ensures exchange.reply.body.AccountBody? <==> resource.Info?
  {
  }

  ghost function EffectsOf(round: Round, paths: nat): set<Effect>
    requires paths <= |PATHS|
  {
    set k | 0 <= k < paths :: Rest(round, PATHS[k])
  }

  lemma NotYet(round: Round, paths: nat)
    requires paths < |PATHS|
    ensures Rest(round, PATHS[paths]) !in EffectsOf(round, paths)
    ensures EffectsOf(round, paths + 1) == EffectsOf(round, paths) + {Rest(round, PATHS[paths])}
    ensures Rest(round, PATHS[paths]) in RoundEffects(round)
  {
    forall effect ensures effect in EffectsOf(round, paths + 1) <==> effect in EffectsOf(round, paths) + {Rest(round, PATHS[paths])} {
      if effect in EffectsOf(round, paths) {
        var k :| 0 <= k < paths && effect == Rest(round, PATHS[k]);
      }
    }
  }

  lemma InRound(round: Round, resource: Resource)
    ensures Rest(round, resource) in RoundEffects(round)
  {
    match resource
    case Info => case Orders => case Positions =>
  }

  lemma WholeRound(round: Round)
    ensures EffectsOf(round, |PATHS|) == RoundEffects(round)
  {
    assert EffectsOf(round, 0) == {};
    NotYet(round, 0);
    NotYet(round, 1);
    NotYet(round, 2);
  }

  ghost function Opening(): set<Effect> {
    {Loader, StreamOpen} + RoundEffects(RoundA)
  }

  ghost function UnderStream(): set<Effect> {
    {StreamUpgrade, BarrierRequest, BarrierValidation} + RoundEffects(RoundB)
  }

  lemma OpeningOnly()
    ensures Opening() !! UnderStream() && StreamClose !in Opening() + UnderStream()
  {
  }

  lemma AllDone(counters: Counters)
    requires Exactly(counters, Opening() + UnderStream() + {StreamClose})
    ensures forall effect: Effect :: Of(counters, effect) == if effect.TerminalPersistence? then Pair(0, 0) else Pair(1, 1)
  {
    forall effect: Effect ensures effect in Opening() + UnderStream() + {StreamClose} <==> !effect.TerminalPersistence? {
      match effect
      case Rest(round, resource) =>
        InRound(round, resource);
        assert round == RoundA || round == RoundB;
      case _ =>
    }
  }

  lemma FallbackDone(counters: Counters, finished: set<Effect>)
    requires Exactly(counters, finished) && finished == {Loader} + RoundEffects(RoundA) + RoundEffects(RoundB)
    ensures forall effect: Effect ::
      Of(counters, effect) == if effect.InFallback() && !effect.TerminalPersistence? then Pair(1, 1) else Pair(0, 0)
  {
    forall effect: Effect ensures effect in finished <==> effect.InFallback() && !effect.TerminalPersistence? {
      match effect
      case Rest(round, resource) =>
        InRound(round, resource);
        assert round == RoundA || round == RoundB;
      case _ =>
    }
  }

  // ----- Runs -----

  /** What a READY record rests on: both rounds, and the barrier behind the second or the agreement of the two. */
  ghost predicate ReadProven(exchanges: seq<Exchange>, barriers: seq<Barrier>, mode: Mode) {
    && RoundsProven(exchanges, mode)
    && (if mode.StreamMode? then |barriers| == 1 && BarrierProven(barriers[0], InstantsOf(exchanges[3..]))
        else Snapshots(exchanges[..3]) == Snapshots(exchanges[3..]))
  }

  /** The ledger, with a READY record only over a proven read. */
  ghost predicate RunOk(row: Option<LedgerRow>, performed: seq<Effect>, exchanges: seq<Exchange>, barriers: seq<Barrier>) {
    && LedgerOk(row, performed)
    && (row.None? ==> exchanges == [] && barriers == [])
    && (row.Some? && row.value.evidence.Some? && row.value.evidence.value.status.Ready? ==> ReadProven(exchanges, barriers, row.value.mode))
  }

  lemma FreshRow(mode: Mode)
    ensures LedgerOk(Some(LedgerRow(mode, Running, Started, map[], None)), []) && Exactly(map[], {})
  {
  }

  /** What an execution leaves, with the terminal record counted, is the pattern its decoder demands. */
  lemma SuccessCounts(counters: Counters, mode: Mode)
    requires forall effect: Effect ::
      Of(counters, effect)
      == if (mode.StreamMode? || effect.InFallback()) && !effect.TerminalPersistence? then Pair(1, 1) else Pair(0, 0)
    ensures SuccessPattern(FinishedCounters(counters), mode)
  {
    var after := FinishedCounters(counters);
    forall effect <- EFFECTS
      ensures Of(after, effect) == if mode.StreamMode? || effect.InFallback() then Pair(1, 1) else Pair(0, 0)
    {
      if effect != TerminalPersistence {
        assert Of(after, effect) == Of(counters, effect);
      }
    }
  }

  lemma ClosedRow(row: LedgerRow, performed: seq<Effect>)
    requires LedgerOk(Some(row), performed) && row.state.Running?
    ensures row.evidence.None?
  {
  }

  lemma NothingPerformed(row: Option<LedgerRow>, performed: seq<Effect>)
    requires LedgerOk(row, performed) && row.None?
    ensures performed == []
  {
  }

  /** The read of the store's mode, with its success pattern. */
  method ExecuteMode(reader: PrivateReader) returns (f: Fate<()>)
    requires reader.Open() && reader.Framed() && reader.accepted == []
    requires reader.restCalls == reader.streamFrames == reader.clockCalls == 0
    requires Exactly(reader.store.row.value.counters, {}) && reader.outside.exchanges == [] && reader.outside.barriers == []
    modifies reader, reader.store, reader.outside
    ensures reader.Open()
    ensures f.Done? ==> SuccessPattern(FinishedCounters(reader.store.row.value.counters), reader.mode) && reader.restCalls == 6
    ensures f.Done? ==> ReadProven(reader.outside.exchanges, reader.outside.barriers, reader.mode)
    ensures f.Done? ==> if reader.mode.StreamMode? then reader.clockCalls == 7 else reader.clockCalls == 6 && reader.streamFrames == 0
    ensures f.Raised? ==> f.code != ""
  {
    hide LedgerOk, Exactly, SuccessPattern, RoundsProven, BarrierProven;
    if reader.mode.StreamMode? {
      f := reader.Execute();
    } else {
      f := reader.ExecuteRestFallback();
    }
    if f.Done? {
      SuccessCounts(reader.store.row.value.counters, reader.mode);
    }
  }

  /** One start in some mode. A start that finds a row does nothing but answer from it. */
  method FixtureRun(store: OperationalStore, outside: Outside, mode: Mode) returns (f: Fate<OperationalResult>)
    requires RunOk(store.row, outside.performed, outside.exchanges, outside.barriers)
    modifies store, outside
    ensures RunOk(store.row, outside.performed, outside.exchanges, outside.barriers)
    ensures old(store.row).Some? ==> store.row == old(store.row) && outside.performed == old(outside.performed)
    ensures old(store.row).Some? && f.Done? ==> Answer(old(store.row).value, mode) == Ok(f.value)
    ensures old(store.row).None? && f.Done? ==>
      store.row.Some? && store.row.value.mode == mode && store.row.value.state.Finished? && store.row.value.evidence == Some(f.value)
  {
    hide LedgerOk, Answer, SuccessPattern, Exactly, ReadProven;
    var claimed := store.Claim(mode);
    FreshRow(mode);
    if old(store.row).None? {
      NothingPerformed(old(store.row), outside.performed);
    }
    if !claimed.Done? { return claimed.PropagateFailure(); }
    if claimed.value.Some? { return Done(claimed.value.value); }
    var reader := new PrivateReader(store, outside, mode);
    var run := ExecuteMode(reader);
    ClosedRow(store.row.value, outside.performed);
    if run.Crashed? { return Crashed; }
    var ready, reason := run.Done?, if run.Raised? then run.code else ReadyReason(mode);
    if ready {
      var read := store.Snapshot();
      if read.Crashed? { return Crashed; }
      if read.Raised? {
        ready, reason := false, read.code;
      }
    }
    if !ready {
      var read := store.Snapshot();
      if !read.Done? { return read.PropagateFailure(); }
    }
    var released := outside.Fail();
    if released.Crashed? || (released.Raised? && released.code == "CANCELLED") { return released.PropagateFailure(); }
    if released.Raised? && ready {
      var read := store.Snapshot();
      if !read.Done? { return read.PropagateFailure(); }
      ready, reason := false, "CAPABILITY_CLOSE_FAILED";
    }
    var row := store.row.value;
    var result := OperationalResult(
      if ready then Ready else Blocked, if reason == "STORE_UNAVAILABLE" then "UNEXPECTED_FAILURE" else reason, row.phase, row.counters,
      reader.restCalls, reader.streamFrames, reader.clockCalls, ready, mode);
    f := store.Finish(result);
    if store.row != Some(row) {
      if store.row.value.state.Finished? {
        FinishedAnswers(row, outside.performed, result);
      } else {
        IncrementOk(row, outside.performed, TerminalPersistence, false);
      }
    }
    if f.Done? && reason == "CANCELLED" { return Fate.Raised("CANCELLED"); }
  }

  lemma OnceEach(row: Option<LedgerRow>, performed: seq<Effect>, effect: Effect)
    requires LedgerOk(row, performed)
    ensures Times(performed, effect) <= 1
  {
    EveryEffect(effect);
  }

  /** What any start may have answered from a row: the recorded result of a finished one, that it was interrupted of a running one. */
  ghost predicate Answers(row: LedgerRow, answer: OperationalResult) {
    && (row.state.Finished? ==> row.evidence == Some(answer) && ResultDecodes(answer, row.mode))
    && (row.state.Running? ==> answer == Interrupted(row))
  }

  lemma AnswersFrom(row: LedgerRow, performed: seq<Effect>, mode: Mode, answer: OperationalResult)
    requires LedgerOk(Some(row), performed)
    requires Answer(row, mode) == Ok(answer) || (row.state.Finished? && row.evidence == Some(answer))
    ensures Answers(row, answer)
  {
  }

  /**
   Any number of starts on one row, in any modes, each dying wherever it may: each effect happens at most once, every start
   that answers gives the same answer, a row left running only ever answers that it was interrupted, and a READY answer shows
   exactly what a successful read of its mode does.
   */
  method ProcessStarts(modes: seq<Mode>, store: OperationalStore, outside: Outside) returns (answers: seq<Fate<OperationalResult>>)
    requires store.row == None && outside.performed == [] && outside.exchanges == [] && outside.barriers == []
    modifies store, outside
    ensures |answers| == |modes| && forall effect: Effect :: Times(outside.performed, effect) <= 1
    ensures forall answer <- answers | answer.Done? :: store.row.Some? && Answers(store.row.value, answer.value)
    ensures forall i, j | 0 <= i < |answers| && 0 <= j < |answers| && answers[i].Done? && answers[j].Done? :: answers[i] == answers[j]
    ensures forall answer <- answers | answer.Done? && answer.value.status.Ready? ::
      && ReadyDecodes(answer.value, answer.value.mode)
      && ReadProven(outside.exchanges, outside.barriers, answer.value.mode)
  {
    hide LedgerOk, Answer, SuccessPattern, ReadProven;
    answers := [];
    EmptyOk();
    for k := 0 to |modes|
      invariant |answers| == k && RunOk(store.row, outside.performed, outside.exchanges, outside.barriers)
      invariant forall answer <- answers | answer.Done? :: store.row.Some? && Answers(store.row.value, answer.value)
    {
      var answer := FixtureRun(store, outside, modes[k]);
      if answer.Done? {
        AnswersFrom(store.row.value, outside.performed, modes[k], answer.value);
      }
      answers := answers + [answer];
    }
    forall effect: Effect ensures Times(outside.performed, effect) <= 1 {
      OnceEach(store.row, outside.performed, effect);
    }
    forall i, j | 0 <= i < |answers| && 0 <= j < |answers| && answers[i].Done? && answers[j].Done? ensures answers[i] == answers[j] {
      assert answers[i] in answers && answers[j] in answers;
    }
  }

  lemma EmptyOk()
    ensures LedgerOk(None, [])
  {
  }
}

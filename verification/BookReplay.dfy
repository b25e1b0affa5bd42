/**
 The held book against the true one: every change the venue ever made, replayed up to an instant.
 */
module BookReplay {
  import opened Wrappers
  import opened OrderBooks

  /** The venue sets one level of one side at an instant of its own sequence. */
  datatype Change = Change(at: int, onBid: bool, level: Level)

  function Truth(changes: seq<Change>, onBid: bool, at: int): Levels {
    if changes == [] then map[]
    else
      var n := |changes| - 1;
      var before := Truth(changes[..n], onBid, at);
      if changes[n].onBid == onBid && changes[n].at <= at then Put(before, changes[n].level) else before
  }

  function Held(side: Levels, price: real): real {
    if price in side then side[price] else 0.0
  }

  predicate Clean(side: Levels) {
    forall price <- side.Keys :: side[price] != 0.0
  }

  ghost predicate Mentions(levels: seq<Level>, price: real) {
    exists level <- levels :: level.price == price
  }

  /** Levels that leave every price they mention as it truly is at `to`, and mention every price touched after `from`. */
  ghost predicate Faithful(changes: seq<Change>, onBid: bool, levels: seq<Level>, from: int, to: int) {
    && (forall price: real | Mentions(levels, price) :: Held(PutAll(map[], levels), price) == Held(Truth(changes, onBid, to), price))
    && (forall change <- changes | change.onBid == onBid && from < change.at <= to :: Mentions(levels, change.level.price))
  }

  ghost predicate FaithfulDelta(changes: seq<Change>, d: Delta, from: int, to: int) {
    Faithful(changes, true, d.bids, from, to) && Faithful(changes, false, d.asks, from, to)
  }

  // ----- Replay -----

  lemma {:induction false} TruthIsClean(changes: seq<Change>, onBid: bool, at: int)
    ensures Clean(Truth(changes, onBid, at))
  {
    if changes != [] {
      TruthIsClean(changes[..|changes| - 1], onBid, at);
    }
  }

  lemma {:induction false} PutAllIsClean(side: Levels, levels: seq<Level>)
    requires Clean(side)
    ensures Clean(PutAll(side, levels))
  {
    if levels != [] {
      PutAllIsClean(side, levels[..|levels| - 1]);
    }
  }

  lemma SameHeld(a: Levels, b: Levels)
    requires Clean(a) && Clean(b) && forall price: real :: Held(a, price) == Held(b, price)
    ensures a == b
  {
    forall price: real ensures price in a <==> price in b {
      assert Held(a, price) == Held(b, price);
    }
    forall price <- a.Keys ensures a[price] == b[price] {
      assert Held(a, price) == Held(b, price);
    }
  }

  /** A price the levels mention ends where they leave it; any other stays as it was. */
  lemma {:induction false} PutAllAt(side: Levels, levels: seq<Level>, price: real)
    ensures Held(PutAll(side, levels), price)
         == if Mentions(levels, price) then Held(PutAll(map[], levels), price) else Held(side, price)
  {
    if levels != [] {
      var n := |levels| - 1;
      PutAllAt(side, levels[..n], price);
      assert levels == levels[..n] + [levels[n]];
      if levels[n].price == price {
        assert Mentions(levels, price);
      } else {
        assert Mentions(levels, price) <==> Mentions(levels[..n], price);
      }
    }
  }

  /** A price nobody touches after `from` is at `to` what it was at `from`. */
  lemma {:induction false} Untouched(changes: seq<Change>, onBid: bool, from: int, to: int, price: real)
    requires from <= to
    requires forall change <- changes | change.onBid == onBid && from < change.at <= to :: change.level.price != price
    ensures Held(Truth(changes, onBid, from), price) == Held(Truth(changes, onBid, to), price)
  {
    if changes != [] {
      var n := |changes| - 1;
      Untouched(changes[..n], onBid, from, to, price);
      assert changes[n] in changes;
    }
  }

  /** The bridge: absolute levels covering (from, to] carry a true book from any instant of that interval to its end. */
  lemma Bridge(changes: seq<Change>, onBid: bool, side: Levels, levels: seq<Level>, from: int, held: int, to: int)
    requires Faithful(changes, onBid, levels, from, to) && from <= held <= to && side == Truth(changes, onBid, held)
    ensures PutAll(side, levels) == Truth(changes, onBid, to)
  {
    var after := PutAll(side, levels);
    TruthIsClean(changes, onBid, held);
    TruthIsClean(changes, onBid, to);
    PutAllIsClean(side, levels);
    forall price: real ensures Held(after, price) == Held(Truth(changes, onBid, to), price) {
      PutAllAt(side, levels, price);
      if !Mentions(levels, price) {
        Untouched(changes, onBid, held, to, price);
      }
    }
    SameHeld(after, Truth(changes, onBid, to));
  }

  /** Why a later start is a gap: a delta over (2, 3] is faithful and still loses what happened at 2. */
  lemma SkippedIntervalLosesLevels()
    ensures var changes := [Change(2, true, Level(1.0, 5.0))];
      Faithful(changes, true, [], 2, 3) && PutAll(Truth(changes, true, 1), []) != Truth(changes, true, 3)
  {
    var changes := [Change(2, true, Level(1.0, 5.0))];
    assert changes[..0] == [];
    assert 1.0 in Truth(changes, true, 3);
  }

  // ----- Streams -----

  /** An initialised book with a sequence is the true book at that sequence. */
  ghost predicate Tracks(changes: seq<Change>, s: Stream) {
    s.initialized && s.sequence.Some? ==> s.bids == Truth(changes, true, s.sequence.value) && s.asks == Truth(changes, false, s.sequence.value)
  }

  /** What the venue promises: a snapshot is the book at its number, and a delta covers the interval its numbers span. Extended numbers
      every update of a market; on the all-market stream the numbers in between belong to other markets. */
  ghost predicate Honest(changes: seq<Change>, s: Stream, op: Op) {
    match op
    case Take(bids, asks, _, sequence) =>
      (sequence.Some? ==> FromLevels(bids) == Truth(changes, true, sequence.value) && FromLevels(asks) == Truth(changes, false, sequence.value))
    case Apply(d) =>
      (d.sequence.Some? ==>
        (if s.venue.Extended? then FaithfulDelta(changes, d, d.sequence.value - 1, d.sequence.value)
         else d.previous.Some? ==> FaithfulDelta(changes, d, d.previous.value, d.sequence.value)))
    case ApplyAggregate(d) =>
      (d.sequence.Some? && s.sequence.Some? ==> FaithfulDelta(changes, d, s.sequence.value, d.sequence.value))
    case _ => true
  }

  lemma AppliedTracks(changes: seq<Change>, s: Stream, d: Delta, from: int, to: int)
    requires Tracks(changes, s) && s.initialized && s.sequence.Some? && from <= s.sequence.value <= to
    requires FaithfulDelta(changes, d, from, to)
    ensures Tracks(changes, Finish(Applied(s, d.bids, d.asks).(sequence := Some(to)), d.observedAt).stream)
  {
    Bridge(changes, true, s.bids, d.bids, from, s.sequence.value, to);
    Bridge(changes, false, s.asks, d.asks, from, s.sequence.value, to);
    hide Truth, PutAll, Faithful;
  }

  lemma StepTracks(changes: seq<Change>, s: Stream, op: Op, crc: Checksum)
    requires !s.venue.Risex? && Tracks(changes, s) && Honest(changes, s, op)
    ensures Tracks(changes, Step(s, op, crc)) && Step(s, op, crc).venue == s.venue
  {
    hide Truth, PutAll, FaithfulDelta, FromLevels, ValidBbo;
    if s.initialized && s.sequence.Some? {
      var held := s.sequence.value;
      match op
      case Apply(d) =>
        if d.sequence.Some? {
          var from := if s.venue.Extended? then d.sequence.value - 1 else if d.previous.Some? then d.previous.value else held + 1;
          if from <= held < d.sequence.value {
            AppliedTracks(changes, s, d, from, d.sequence.value);
          }
        }
      case ApplyAggregate(d) =>
        if d.sequence.Some? && held < d.sequence.value {
          AppliedTracks(changes, s, d, held, d.sequence.value);
        }
      case _ =>
    }
  }

  /** On every run against an honest venue, a book that is not gapped is the true book at its sequence: through snapshots that fall inside
      a delta's interval, ignored stale deltas, gaps and reconnections. */
  lemma {:induction false} RunTracks(changes: seq<Change>, trace: seq<Stream>, ops: seq<Op>, crc: Checksum, i: nat)
    requires IsRun(trace, ops, crc) && !trace[0].venue.Risex? && i < |trace|
    requires forall k | 0 <= k < |ops| :: Honest(changes, trace[k], ops[k])
    ensures Tracks(changes, trace[i]) && trace[i].venue == trace[0].venue
  {
    hide Honest, Tracks, Step;
    if i == 0 {
      NewTracks(changes, trace[0].venue, trace[0].market);
    } else {
      RunTracks(changes, trace, ops, crc, i - 1);
      StepTracks(changes, trace[i - 1], ops[i - 1], crc);
    }
  }

  lemma NewTracks(changes: seq<Change>, venue: Venue, market: nat)
    ensures Tracks(changes, NewStream(venue, market))
  {
  }

  /** RISEX has no chain: this operation is the venue's word for the book. It sent the book whole, or an update whose checksum
      the book has. */
  ghost predicate Vouches(op: Op, bids: Levels, asks: Levels, crc: Checksum) {
    || (op.Take? && bids == FromLevels(op.bids) && asks == FromLevels(op.asks))
    || (op.Apply? && op.delta.checksum == Some(crc(bids, asks)))
  }

  /** An update is taken exactly when it is newer than the held book and leads to a two-sided, uncrossed book with its own checksum. */
  lemma RisexTakesItsChecksum(s: Stream, d: Delta, crc: Checksum)
    requires s.venue.Risex? && d.venue == s.venue && d.market == s.market
    ensures var answer := ApplyDelta(s, d, crc); var bids, asks := PutAll(s.bids, d.bids), PutAll(s.asks, d.asks);
      && answer.Ok?
      && (answer.value.taken <==>
            && s.initialized && d.checksum == Some(crc(bids, asks)) && ValidBbo(bids, asks)
            && (d.sequence.Some? && s.sequence.Some? ==> s.sequence.value < d.sequence.value))
      && (answer.value.taken ==> answer.value.stream.bids == bids && answer.value.stream.asks == asks)
  {
    hide PutAll, ValidBbo;
  }

  lemma RisexStep(s: Stream, op: Op, crc: Checksum)
    requires s.venue.Risex? && Step(s, op, crc).initialized
    ensures var after := Step(s, op, crc);
      || Vouches(op, after.bids, after.asks, crc)
      || (s.initialized && after.bids == s.bids && after.asks == s.asks)
  {
    hide PutAll, FromLevels, ValidBbo, ApplyDelta;
    if op.Apply? && ApplyDelta(s, op.delta, crc).Ok? {
      TakenOrGapped(s, op.delta, crc);
      RisexAddressed(s, op.delta, crc);
      RisexTakesItsChecksum(s, op.delta, crc);
    }
  }

  lemma RisexAddressed(s: Stream, d: Delta, crc: Checksum)
    requires ApplyDelta(s, d, crc).Ok?
    ensures d.venue == s.venue && d.market == s.market
  {
    hide PutAll, ValidBbo;
  }

  /** On every run, an open RISEX book is one the venue vouched for, unchanged since. */
  lemma {:induction false} RisexBookIsVouched(trace: seq<Stream>, ops: seq<Op>, crc: Checksum, i: nat)
    requires IsRun(trace, ops, crc) && trace[0].venue.Risex? && i < |trace|
    ensures trace[i].venue.Risex?
    ensures trace[i].initialized ==> exists k | 0 <= k < i ::
      && Vouches(ops[k], trace[i].bids, trace[i].asks, crc)
      && forall j | k < j <= i :: trace[j].initialized && trace[j].bids == trace[i].bids && trace[j].asks == trace[i].asks
  {
    hide Step, Vouches;
    if i > 0 {
      var before := trace[i - 1];
      RisexBookIsVouched(trace, ops, crc, i - 1);
      StepStaysRisex(before, ops[i - 1], crc);
      if trace[i].initialized {
        RisexStep(before, ops[i - 1], crc);
        if !Vouches(ops[i - 1], trace[i].bids, trace[i].asks, crc) {
          var k :| 0 <= k < i - 1 && Vouches(ops[k], before.bids, before.asks, crc)
            && forall j | k < j <= i - 1 :: trace[j].initialized && trace[j].bids == before.bids && trace[j].asks == before.asks;
          assert Vouches(ops[k], trace[i].bids, trace[i].asks, crc);
        }
      }
    }
  }

  lemma StepStaysRisex(s: Stream, op: Op, crc: Checksum)
    ensures Step(s, op, crc).venue == s.venue
  {
    hide PutAll, FromLevels, ValidBbo, ApplyDelta;
    if op.Apply? {
      DeltaStays(s, op.delta, crc);
    }
  }

  lemma DeltaStays(s: Stream, d: Delta, crc: Checksum)
    ensures ApplyDelta(s, d, crc).Ok? ==> ApplyDelta(s, d, crc).value.stream.venue == s.venue
  {
    hide PutAll, ValidBbo;
  }

  /** After a gap or a disconnection only a snapshot brings the book back. */
  lemma OnlySnapshotReopens(s: Stream, op: Op, crc: Checksum)
    ensures !s.initialized && !op.Take? ==> !Step(s, op, crc).initialized
    ensures !op.Take? && s.sequence.Some? ==>
      Step(s, op, crc).sequence.Some? && s.sequence.value <= Step(s, op, crc).sequence.value
    ensures op.Gap? || op.Disconnect? ==> !Published(Step(s, op, crc))
  {
    hide PutAll, FromLevels, ValidBbo, ApplyDelta;
    if op.Apply? {
      DeltaNeverReopens(s, op.delta, crc);
    }
  }

  lemma DeltaNeverReopens(s: Stream, d: Delta, crc: Checksum)
    ensures ApplyDelta(s, d, crc).Ok? ==>
      var after := ApplyDelta(s, d, crc).value.stream;
      && (!s.initialized ==> !after.initialized)
      && (s.sequence.Some? ==> after.sequence.Some? && s.sequence.value <= after.sequence.value)
  {
    hide PutAll, ValidBbo;
  }

  /** A delta is taken only into a valid book; a refused one leaves a gap, and RISEX answers before its first snapshot likewise. */
  lemma TakenOrGapped(s: Stream, d: Delta, crc: Checksum)
    ensures var answer := ApplyDelta(s, d, crc);
      answer.Ok? ==>
        && (answer.value.taken ==> answer.value.stream.initialized)
        && (answer.value.taken && answer.value.stream != s ==> ValidBbo(answer.value.stream.bids, answer.value.stream.asks))
        && (!answer.value.taken ==> !answer.value.stream.initialized)
  {
    hide PutAll, ValidBbo;
  }

  ghost predicate StreamOk(s: Stream) {
    (s.initialized ==> s.observedAt.Some?) && (s.sequenceValid ==> s.initialized && ValidBbo(s.bids, s.asks))
  }

  lemma StepOk(s: Stream, op: Op, crc: Checksum)
    requires StreamOk(s)
    ensures StreamOk(Step(s, op, crc))
  {
    hide PutAll, FromLevels, ValidBbo, ApplyDelta, AggregateDelta;
    match op
    case Apply(d) => DeltaOk(s, d, crc);
    case ApplyAggregate(d) => AggregateOk(s, d);
    case _ =>
  }

  lemma DeltaOk(s: Stream, d: Delta, crc: Checksum)
    requires StreamOk(s)
    ensures ApplyDelta(s, d, crc).Ok? ==> StreamOk(ApplyDelta(s, d, crc).value.stream)
  {
    hide PutAll, ValidBbo;
  }

  lemma AggregateOk(s: Stream, d: Delta)
    requires StreamOk(s)
    ensures AggregateDelta(s, d).Ok? ==> StreamOk(AggregateDelta(s, d).value.stream)
  {
    hide PutAll, ValidBbo;
  }

  /** Complete health means a published, uncrossed book over a connection confirmed in the last 25 seconds. */
  lemma {:induction false} HealthyIsPublished(trace: seq<Stream>, ops: seq<Op>, crc: Checksum, i: nat, now: int)
    requires IsRun(trace, ops, crc) && i < |trace|
    ensures StreamOk(trace[i])
    ensures Published(trace[i]) ==> ValidBbo(trace[i].bids, trace[i].asks)
    ensures Usable(trace[i], now) <==>
      && Published(trace[i]) && trace[i].connected && trace[i].confirmedAt.Some? && now - trace[i].confirmedAt.value <= MAX_SILENCE
      && (trace[i].venue.Lighter? ==> trace[i].sequence.Some?)
  {
    hide ValidBbo, Step;
    if i > 0 {
      HealthyIsPublished(trace, ops, crc, i - 1, now);
      StepOk(trace[i - 1], ops[i - 1], crc);
    }
  }
}

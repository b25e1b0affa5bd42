/**
 One public order book kept up to date from a snapshot and absolute level deltas, as functions on values.
 Instants are in microseconds.
 */
module OrderBooks {
  import opened Wrappers
  import Funding

  type Venue = Funding.Venue

  datatype Level = Level(price: real, quantity: real)

  /** Price to quantity. */
  type Levels = map<real, real>

  /** A checksum of both sides. */
  type Checksum = (Levels, Levels) -> int

  const MAX_SILENCE := 25_000_000

  datatype Delta = Delta(venue: Venue, market: nat, bids: seq<Level>, asks: seq<Level>, observedAt: int, sequence: Option<int>,
                         previous: Option<int>, checksum: Option<int>)
  {
    /** The exchange never sends a negative quantity; one would raise midway through the update. */
    predicate NonNegative() {
      (forall level <- bids :: level.quantity >= 0.0) && (forall level <- asks :: level.quantity >= 0.0)
    }
  }

  datatype Stream = Stream(
    venue: Venue, market: nat, bids: Levels, asks: Levels, observedAt: Option<int>, sequence: Option<int>, eventAt: Option<int>,
    confirmedAt: Option<int>, connected: bool, initialized: bool, sequenceValid: bool)

  /** The stream after a delta, and whether the delta was taken. */
  datatype Answer = Answer(stream: Stream, taken: bool)

  function NewStream(venue: Venue, market: nat): Stream {
    Stream(venue, market, map[], map[], None, None, None, None, false, false, false)
  }

  // ----- Levels -----

  /** An absolute level replaces what was at its price; a zero quantity removes it. */
  function Put(side: Levels, level: Level): Levels {
    if level.quantity == 0.0 then side - {level.price} else side[level.price := level.quantity]
  }

  function PutAll(side: Levels, levels: seq<Level>): Levels {
    if levels == [] then side else Put(PutAll(side, levels[..|levels| - 1]), levels[|levels| - 1])
  }

  /** Both sides are there and every bid is below every ask. */
  predicate ValidBbo(bids: Levels, asks: Levels) {
    |bids| > 0 && |asks| > 0 && forall bid <- bids.Keys, ask <- asks.Keys :: bid < ask
  }

  // ----- Steps -----

  function Gapped(s: Stream): Stream {
    s.(initialized := false, sequenceValid := false)
  }

  function Disconnected(s: Stream): Stream {
    Gapped(s).(connected := false)
  }

  function Refused(s: Stream): Answer {
    Answer(Gapped(s), false)
  }

  function Snapshot(s: Stream, bids: seq<Level>, asks: seq<Level>, at: int, sequence: Option<int>): Stream {
    var b, a := FromLevels(bids), FromLevels(asks);
    s.(bids := b, asks := a, observedAt := Some(at), eventAt := Some(at), sequence := sequence, initialized := true,
    sequenceValid := ValidBbo(b, a))
  }

  /** Later levels at the same price win, as they do in a dictionary display. */
  function FromLevels(levels: seq<Level>): Levels {
    if levels == [] then map[]
    else FromLevels(levels[..|levels| - 1])[levels[|levels| - 1].price := levels[|levels| - 1].quantity]
  }

  function Applied(s: Stream, bids: seq<Level>, asks: seq<Level>): Stream {
    s.(bids := PutAll(s.bids, bids), asks := PutAll(s.asks, asks))
  }

  /** A crossed or one-sided book is a gap. */
  function Finish(s: Stream, at: int): Answer {
    var valid := ValidBbo(s.bids, s.asks);
    var seen := s.(observedAt := Some(at), eventAt := Some(at), sequenceValid := valid);
    Answer(if valid then seen else Gapped(seen), valid)
  }

  function ExtendedDelta(s: Stream, bids: seq<Level>, asks: seq<Level>, sequence: int, at: int): Answer {
    if !s.initialized || s.sequence.None? || sequence != s.sequence.value + 1 then Refused(s)
    else Finish(Applied(s, bids, asks).(sequence := Some(sequence)), at)
  }

  function LighterDelta(s: Stream, bids: seq<Level>, asks: seq<Level>, previous: int, sequence: int, at: int): Answer {
    if !s.initialized || s.sequence.None? || previous != s.sequence.value || sequence <= previous then Refused(s)
    else Finish(Applied(s, bids, asks).(sequence := Some(sequence)), at)
  }

  /** A delta wholly before the held book is ignored; one that starts before it and ends after it is applied. */
  function NadoDelta(s: Stream, bids: seq<Level>, asks: seq<Level>, lastMax: int, max: int, at: int): Answer {
    if !s.initialized || s.sequence.None? then Refused(s)
    else if max <= s.sequence.value then Answer(s, true)
    else if lastMax > s.sequence.value then Refused(s)
    else Finish(Applied(s, bids, asks).(sequence := Some(max)), at)
  }

  function RisexUpdate(s: Stream, bids: seq<Level>, asks: seq<Level>, checksum: int, at: int, sequence: Option<int>, crc: Checksum): Answer {
    if !s.initialized then Answer(s, false)
    else if sequence.Some? && s.sequence.Some? && sequence.value <= s.sequence.value then Refused(s)
    else
      var applied := Applied(s, bids, asks);
      if crc(applied.bids, applied.asks) != checksum then Refused(applied)
      else
        var finished := Finish(applied, at);
        if finished.taken && sequence.Some? then Answer(finished.stream.(sequence := sequence), true) else finished
  }

  /** Each venue's own chain rule; a delta without the numbers its venue needs is a gap. */
  function ApplyDelta(s: Stream, d: Delta, crc: Checksum): Result<Answer, string> {
    if d.venue != s.venue || d.market != s.market then Err("DELTA_OF_ANOTHER_STREAM")
    else if s.venue.Extended? && d.sequence.Some? then Ok(ExtendedDelta(s, d.bids, d.asks, d.sequence.value, d.observedAt))
    else if s.venue.Nado? && d.sequence.Some? && d.previous.Some? then
      Ok(NadoDelta(s, d.bids, d.asks, d.previous.value, d.sequence.value, d.observedAt))
    else if s.venue.Lighter? && d.sequence.Some? && d.previous.Some? then
      Ok(LighterDelta(s, d.bids, d.asks, d.previous.value, d.sequence.value, d.observedAt))
    else if s.venue.Risex? && d.checksum.Some? then
      Ok(RisexUpdate(s, d.bids, d.asks, d.checksum.value, d.observedAt, d.sequence, crc))
    else Ok(Refused(s))
  }

  /** One market's deltas on the all-market Extended stream: increasing, with the other markets' numbers skipped. */
  function AggregateDelta(s: Stream, d: Delta): Result<Answer, string> {
    if d.venue != s.venue || d.market != s.market then Err("DELTA_OF_ANOTHER_STREAM")
    else if !s.venue.Extended? || !s.initialized || s.sequence.None? || d.sequence.None? || d.sequence.value <= s.sequence.value then
      Ok(Refused(s))
    else Ok(Finish(Applied(s, d.bids, d.asks).(sequence := d.sequence), d.observedAt))
  }

  predicate Usable(s: Stream, now: int) {
    && s.connected && s.confirmedAt.Some? && now - s.confirmedAt.value <= MAX_SILENCE && s.initialized && s.sequenceValid
    && (s.venue.Lighter? ==> s.sequence.Some?) && ValidBbo(s.bids, s.asks)
  }

  /** Is there a book to publish? */
  predicate Published(s: Stream) {
    s.initialized && s.sequenceValid && s.observedAt.Some?
  }

  // ----- Runs -----

  datatype Op =
    | Connect(at: int)
    | Confirm(at: int)
    | Disconnect
    | Gap
    | Take(bids: seq<Level>, asks: seq<Level>, at: int, sequence: Option<int>)
    | Apply(delta: Delta)
    | ApplyAggregate(delta: Delta)

  function Step(s: Stream, op: Op, crc: Checksum): Stream {
    match op
    case Connect(at) => s.(connected := true, confirmedAt := Some(at))
    case Confirm(at) => if s.connected then s.(confirmedAt := Some(at)) else s
    case Disconnect => Disconnected(s)
    case Gap => Gapped(s)
    case Take(bids, asks, at, sequence) => Snapshot(s, bids, asks, at, sequence)
    case Apply(delta) => var answer := ApplyDelta(s, delta, crc); if answer.Ok? then answer.value.stream else s
    case ApplyAggregate(delta) => var answer := AggregateDelta(s, delta); if answer.Ok? then answer.value.stream else s
  }

  ghost predicate IsRun(trace: seq<Stream>, ops: seq<Op>, crc: Checksum) {
    && |trace| == |ops| + 1 && trace[0] == NewStream(trace[0].venue, trace[0].market)
    && (forall op <- ops :: op.Apply? || op.ApplyAggregate? ==> op.delta.NonNegative())
    && forall i | 0 <= i < |ops| :: trace[i + 1] == Step(trace[i], ops[i], crc)
  }
}

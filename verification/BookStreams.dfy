/**
 The book stream as the program it is: two dictionaries and a handful of flags, changed in place.
 */
module BookStreams {
  import opened Wrappers
  import opened OrderBooks

  /** Best level first. */
  predicate Ordered(levels: seq<Level>, descending: bool) {
    forall i, j | 0 <= i < j < |levels| :: if descending then levels[i].price > levels[j].price else levels[i].price < levels[j].price
  }

  /** Exactly the levels of a side. */
  ghost predicate Lists(levels: seq<Level>, side: Levels) {
    && (forall level <- levels :: level.price in side && side[level.price] == level.quantity)
    && (forall price <- side.Keys :: Level(price, side[price]) in levels)
  }

  method Choose<T>(members: set<T>) returns (member: T)
    requires members != {}
    ensures member in members
  {
    member :| member in members;
  }

  /** The best price of a side: highest bid or lowest ask. */
  method Best(side: Levels, descending: bool) returns (best: real)
    requires side.Keys != {}
    ensures best in side && forall price <- side.Keys :: if descending then price <= best else best <= price
  {
    var rest := side.Keys;
    best := Choose(rest);
    rest := rest - {best};
    while rest != {}
      invariant rest <= side.Keys && best in side
      invariant forall price <- side.Keys :: price in rest || (if descending then price <= best else best <= price)
      decreases |rest|
    {
      var price := Choose(rest);
      if if descending then price > best else price < best {
        best := price;
      }
      rest := rest - {price};
    }
  }

  method SortedLevels(side: Levels, descending: bool) returns (levels: seq<Level>)
    ensures Ordered(levels, descending) && Lists(levels, side)
  {
    levels := [];
    var rest := side;
    while rest.Keys != {}
      invariant rest.Keys <= side.Keys && forall price <- rest.Keys :: rest[price] == side[price]
      invariant Ordered(levels, descending)
      invariant forall level <- levels :: level.price in side && level.price !in rest && side[level.price] == level.quantity
      invariant forall level <- levels, price <- rest.Keys :: if descending then level.price > price else level.price < price
      invariant forall price <- side.Keys :: price in rest || Level(price, side[price]) in levels
      decreases |rest.Keys|
    {
      var best := Best(rest, descending);
      var before := rest;
      levels := levels + [Level(best, rest[best])];
      rest := rest - {best};
      assert rest.Keys == before.Keys - {best};
    }
  }

  datatype Published = Published(bids: seq<Level>, asks: seq<Level>, observedAt: int, sequence: Option<int>)

  class BookStream {
    const venue: Venue
    const market: nat
    var bids: Levels
    var asks: Levels
    var observedAt: Option<int>
    var sequence: Option<int>
    var eventAt: Option<int>
    var confirmedAt: Option<int>
    var connected: bool
    var initialized: bool
    var sequenceValid: bool

    ghost function View(): Stream
      reads this
    {
      Stream(venue, market, bids, asks, observedAt, sequence, eventAt, confirmedAt, connected, initialized, sequenceValid)
    }

    constructor (venue: Venue, market: nat)
      ensures View() == NewStream(venue, market)
    {
      this.venue, this.market := venue, market;
      bids, asks, observedAt, sequence, eventAt, confirmedAt := map[], map[], None, None, None, None;
      connected, initialized, sequenceValid := false, false, false;
    }

    method MarkConnected(at: int)
      modifies this
      ensures View() == old(View()).(connected := true, confirmedAt := Some(at))
    {
      connected, confirmedAt := true, Some(at);
    }

    method ConnectionConfirmed(at: int)
      modifies this
      ensures View() == if old(connected) then old(View()).(confirmedAt := Some(at)) else old(View())
    {
      if connected {
        confirmedAt := Some(at);
      }
    }

    method MarkDisconnected()
      modifies this
      ensures View() == Disconnected(old(View()))
    {
      connected, initialized, sequenceValid := false, false, false;
    }

    method MarkGap()
      modifies this
      ensures View() == Gapped(old(View()))
    {
      initialized, sequenceValid := false, false;
    }

    method TakeSnapshot(book: Published, of: Venue, at: nat, numbered: Option<int>) returns (answer: Result<(), string>)
      modifies this
      ensures answer.Ok? <==> of == venue && at == market
      ensures View() == if answer.Err? then old(View())
                        else Snapshot(old(View()), book.bids, book.asks, book.observedAt, if numbered.Some? then numbered else book.sequence)
    {
      hide FromLevels, ValidBbo;
      if of != venue || at != market { return Err("SNAPSHOT_OF_ANOTHER_STREAM"); }
      bids, asks := FromLevels(book.bids), FromLevels(book.asks);
      observedAt, eventAt := Some(book.observedAt), Some(book.observedAt);
      sequence := if numbered.Some? then numbered else book.sequence;
      initialized, sequenceValid := true, ValidBbo(bids, asks);
      return Ok(());
    }

    /** Both sides, level by level. */
    method ApplyAbsolute(bidLevels: seq<Level>, askLevels: seq<Level>)
      modifies this`bids, this`asks
      ensures View() == Applied(old(View()), bidLevels, askLevels)
    {
      for k := 0 to |bidLevels|
        invariant bids == PutAll(old(bids), bidLevels[..k]) && asks == old(asks)
      {
        var level := bidLevels[k];
        assert bidLevels[..k + 1] == bidLevels[..k] + [level];
        if level.quantity == 0.0 {
          bids := bids - {level.price};
        } else {
          bids := bids[level.price := level.quantity];
        }
      }
      assert bidLevels[..|bidLevels|] == bidLevels;
      for k := 0 to |askLevels|
        invariant asks == PutAll(old(asks), askLevels[..k]) && bids == PutAll(old(bids), bidLevels)
      {
        var level := askLevels[k];
        assert askLevels[..k + 1] == askLevels[..k] + [level];
        if level.quantity == 0.0 {
          asks := asks - {level.price};
        } else {
          asks := asks[level.price := level.quantity];
        }
      }
      assert askLevels[..|askLevels|] == askLevels;
    }

    method FinishUpdate(at: int) returns (taken: bool)
      modifies this
      ensures Answer(View(), taken) == Finish(old(View()), at)
    {
      observedAt, eventAt := Some(at), Some(at);
      sequenceValid := ValidBbo(bids, asks);
      if !sequenceValid {
        MarkGap();
        return false;
      }
      return true;
    }

    method TakeExtendedDelta(bidLevels: seq<Level>, askLevels: seq<Level>, number: int, at: int) returns (taken: bool)
      modifies this
      ensures Answer(View(), taken) == ExtendedDelta(old(View()), bidLevels, askLevels, number, at)
    {
      if !initialized || sequence.None? || number != sequence.value + 1 {
        MarkGap();
        return false;
      }
      ApplyAbsolute(bidLevels, askLevels);
      sequence := Some(number);
      taken := FinishUpdate(at);
    }

    method TakeLighterDelta(bidLevels: seq<Level>, askLevels: seq<Level>, previous: int, number: int, at: int) returns (taken: bool)
      modifies this
      ensures Answer(View(), taken) == LighterDelta(old(View()), bidLevels, askLevels, previous, number, at)
    {
      if !initialized || sequence.None? || previous != sequence.value || number <= previous {
        MarkGap();
        return false;
      }
      ApplyAbsolute(bidLevels, askLevels);
      sequence := Some(number);
      taken := FinishUpdate(at);
    }

    method TakeNadoDelta(bidLevels: seq<Level>, askLevels: seq<Level>, lastMax: int, max: int, at: int) returns (taken: bool)
      modifies this
      ensures Answer(View(), taken) == NadoDelta(old(View()), bidLevels, askLevels, lastMax, max, at)
    {
      if !initialized || sequence.None? {
        MarkGap();
        return false;
      }
      if max <= sequence.value { return true; }
      if lastMax > sequence.value {
        MarkGap();
        return false;
      }
      ApplyAbsolute(bidLevels, askLevels);
      sequence := Some(max);
      taken := FinishUpdate(at);
    }

    method TakeRisexUpdate(bidLevels: seq<Level>, askLevels: seq<Level>, checksum: int, at: int, number: Option<int>, crc: Checksum)
      returns (taken: bool)
      modifies this
      ensures Answer(View(), taken) == RisexUpdate(old(View()), bidLevels, askLevels, checksum, at, number, crc)
    {
      if !initialized { return false; }
      if number.Some? && sequence.Some? && number.value <= sequence.value {
        MarkGap();
        return false;
      }
      ApplyAbsolute(bidLevels, askLevels);
      if crc(bids, asks) != checksum {
        MarkGap();
        return false;
      }
      taken := FinishUpdate(at);
      if !taken { return false; }
      if number.Some? {
        sequence := number;
      }
      return true;
    }

    method TakeDelta(d: Delta, crc: Checksum) returns (taken: Result<bool, string>)
      modifies this
      ensures var spec := ApplyDelta(old(View()), d, crc);
        if spec.Err? then taken == Err(spec.error) && View() == old(View())
        else taken.Ok? && Answer(View(), taken.value) == spec.value
    {
      hide Finish, Applied;
      if d.venue != venue || d.market != market { return Err("DELTA_OF_ANOTHER_STREAM"); }
      var answer := false;
      if venue.Extended? && d.sequence.Some? {
        answer := TakeExtendedDelta(d.bids, d.asks, d.sequence.value, d.observedAt);
      } else if venue.Nado? && d.sequence.Some? && d.previous.Some? {
        answer := TakeNadoDelta(d.bids, d.asks, d.previous.value, d.sequence.value, d.observedAt);
      } else if venue.Lighter? && d.sequence.Some? && d.previous.Some? {
        answer := TakeLighterDelta(d.bids, d.asks, d.previous.value, d.sequence.value, d.observedAt);
      } else if venue.Risex? && d.checksum.Some? {
        answer := TakeRisexUpdate(d.bids, d.asks, d.checksum.value, d.observedAt, d.sequence, crc);
      } else {
        MarkGap();
      }
      return Ok(answer);
    }

    method TakeAggregateDelta(d: Delta) returns (taken: Result<bool, string>)
      modifies this
      ensures var spec := AggregateDelta(old(View()), d);
        if spec.Err? then taken == Err(spec.error) && View() == old(View())
        else taken.Ok? && Answer(View(), taken.value) == spec.value
    {
      if d.venue != venue || d.market != market { return Err("DELTA_OF_ANOTHER_STREAM"); }
      if !venue.Extended? || !initialized || sequence.None? || d.sequence.None? || d.sequence.value <= sequence.value {
        MarkGap();
        return Ok(false);
      }
      ApplyAbsolute(d.bids, d.asks);
      sequence := d.sequence;
      var answer := FinishUpdate(d.observedAt);
      return Ok(answer);
    }

    /** Nothing to publish while the book is gapped or crossed; otherwise exactly the held levels, best first. */
    method Book() returns (book: Option<Published>)
      ensures book.Some? <==> OrderBooks.Published(View())
      ensures book.Some? ==> Lists(book.value.bids, bids) && Ordered(book.value.bids, true)
      ensures book.Some? ==> Lists(book.value.asks, asks) && Ordered(book.value.asks, false)
      ensures book.Some? ==> Some(book.value.observedAt) == observedAt && book.value.sequence == sequence
    {
      if !initialized || !sequenceValid || observedAt.None? { return None; }
      var bidLevels := SortedLevels(bids, true);
      var askLevels := SortedLevels(asks, false);
      return Some(Published(bidLevels, askLevels, observedAt.value, sequence));
    }

    method Healthy(now: int) returns (complete: bool)
      ensures complete <==> Usable(View(), now)
    {
      var recent := confirmedAt.Some? && now - confirmedAt.value <= MAX_SILENCE;
      complete := connected && recent && initialized && sequenceValid && (!venue.Lighter? || sequence.Some?) && ValidBbo(bids, asks);
    }
  }
}

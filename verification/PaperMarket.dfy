/**
 What the paper engine reads from the market: maker prices, fees, pair profit and the exit
 trades that may fill a resting paper order. Instants are in microseconds.
 */
module PaperMarket {
  import opened Wrappers
  import opened Funding
  import VenueEvidence

  type Side = VenueEvidence.Side
  type Positive = r: real | r > 0.0 witness 1.0

  const SECOND := 1_000_000
  const REPRICE := 10 * SECOND
  const AGGRESSIVE_AFTER := 10 * SECOND
  const BTC_ETH_HARD_BASIS := 0.04
  const OTHER_HARD_BASIS := 0.06

  datatype Phase = Holding | ExitingNormal | ExitingAggressive | Flat {
    function Rank(): nat {
      match this case Holding => 0 case ExitingNormal => 1 case ExitingAggressive => 2 case Flat => 3
    }

    predicate Exiting() {
      ExitingNormal? || ExitingAggressive?
    }
  }

  datatype Rates = Rates(risexMaker: real, risexTaker: real, hedgeMaker: real, hedgeTaker: real, hedgeMinimum: Option<real>)

  /** A fully open pair: equal quantities on RISEX and on the hedge venue, on opposite sides. */
  datatype Position = Position(
    longRisex: bool, hedgeVenue: Venue, majorAsset: bool, quantity: Positive, risexEntry: Positive, hedgeEntry: Positive,
    entryFees: real, entryBasis: real, openedAt: int, makerMarket: nat, makerTick: Positive, rates: Rates)
  {
    /** On Lighter routes the RISEX leg is the maker leg; on every other route the hedge leg is. */
    predicate Lighter() {
      hedgeVenue.Lighter?
    }

    function MakerVenue(): Venue {
      if Lighter() then Risex else hedgeVenue
    }

    function MakerExitSide(): Side {
      if longRisex == Lighter() then VenueEvidence.Sell else VenueEvidence.Buy
    }

    function PairPnl(risexExit: real, hedgeExit: real): real {
      if longRisex then quantity * (risexExit - risexEntry) + quantity * (hedgeEntry - hedgeExit)
      else quantity * (hedgeExit - hedgeEntry) + quantity * (risexEntry - risexExit)
    }

    /** Pair profit when the maker leg leaves at this price and the other leg at its taker price. */
    function MakerPairPnl(look: Look, maker: real): real
      requires look.Priced()
    {
      if Lighter() then PairPnl(maker, look.hedgeTaker.value) else PairPnl(look.risexTaker.value, maker)
    }

    function Basis(risexExit: Positive, hedgeExit: Positive): real {
      if longRisex then hedgeExit / risexExit - 1.0 else risexExit / hedgeExit - 1.0
    }

    /** The basis has moved against the pair by the hard limit of its asset. */
    predicate BasisBroken(look: Look)
      requires look.Priced()
    {
      Basis(look.risexTaker.value, look.hedgeTaker.value) - entryBasis
      >= if majorAsset then BTC_ETH_HARD_BASIS else OTHER_HARD_BASIS
    }

    /** Only a Nado taker pays on a minimum notional. */
    function FeeOf(onRisex: bool, maker: bool, price: Positive): real {
      var notional := quantity * price;
      var minimum := if !onRisex && !maker && hedgeVenue.Nado? then rates.hedgeMinimum else None;
      var charged := if minimum.Some? && minimum.value > notional then minimum.value else notional;
      charged * (if onRisex then (if maker then rates.risexMaker else rates.risexTaker)
                 else (if maker then rates.hedgeMaker else rates.hedgeTaker))
    }
  }

  datatype Bbo = Bbo(bid: Positive, ask: Positive)

  /** One look at both legs: is each healthy and recent, what the taker exits cost, the maker leg's
      best prices, and the execution captures behind a taker fill. */
  datatype Look = Look(healthy: bool, risexTaker: Option<Positive>, hedgeTaker: Option<Positive>, makerBook: Option<Bbo>,
                       risexProof: Option<Positive>, hedgeProof: Option<Positive>)
  {
    predicate Priced() {
      risexTaker.Some? && hedgeTaker.Some?
    }
  }

  // ----- Maker prices -----

  predicate TickAligned(value: real, tick: Positive) {
    (value / tick).Floor as real * tick == value
  }

  /** None where the source refuses the two prices. */
  function SpreadTicks(bid: real, ask: real, tick: Positive): Option<int> {
    if bid >= ask || !TickAligned(bid, tick) || !TickAligned(ask, tick) then None
    else Some(((ask - bid) / tick).Floor)
  }

  lemma Ticked(value: real, tick: Positive, k: int)
    requires value == k as real * tick
    ensures (value / tick).Floor == k && TickAligned(value, tick)
  {
    assert value / tick == k as real;
  }

  lemma NeighboursAligned(value: real, tick: Positive)
    requires TickAligned(value, tick)
    ensures TickAligned(value + tick, tick) && TickAligned(value - tick, tick)
  {
    var k := (value / tick).Floor;
    Ticked(value + tick, tick, k + 1);
    Ticked(value - tick, tick, k - 1);
  }

  lemma Signed(n: int, tick: Positive)
    ensures n <= 0 ==> n as real * tick <= 0.0
    ensures n >= 0 ==> n as real * tick >= 0.0
  {
  }

  /** The spread is a positive whole number of ticks. */
  lemma SpreadIsTicks(bid: real, ask: real, tick: Positive)
    ensures var ticks := SpreadTicks(bid, ask, tick);
      ticks.Some? ==> ticks.value >= 1 && (if ticks.value == 1 then ask - bid == tick else ask - bid >= tick + tick)
  {
    if SpreadTicks(bid, ask, tick).Some? {
      var n := (ask / tick).Floor - (bid / tick).Floor;
      assert ask - bid == n as real * tick;
      Ticked(ask - bid, tick, n);
      Signed(n, tick);
      Signed(n - 2, tick);
      assert ask - bid == (n - 2) as real * tick + tick + tick;
    }
  }

  function ExitMakerPrice(book: Option<Bbo>, side: Side, mode: Phase, tick: Positive): Option<Positive> {
    if book.None? then None
    else
      var bid, ask := book.value.bid, book.value.ask;
      var ticks := SpreadTicks(bid, ask, tick);
      SpreadIsTicks(bid, ask, tick);
      if ticks.None? then None
      else if ticks.value == 1 then Some(if side.Buy? then bid else ask)
      else if mode.ExitingAggressive? then Some(if side.Buy? then ask - tick else bid + tick)
      else Some(if side.Buy? then bid + tick else ask - tick)
  }

  /** Post-only by construction: an exit price is on the tick grid, never outside the touch and never crosses it.
      The aggressive price is one tick from the other side. */
  lemma MakerPriceNeverCrosses(book: Bbo, side: Side, mode: Phase, tick: Positive)
    ensures var price := ExitMakerPrice(Some(book), side, mode, tick);
      && (price.Some? <==> book.bid < book.ask && TickAligned(book.bid, tick) && TickAligned(book.ask, tick))
      && (price.Some? ==> TickAligned(price.value, tick) && book.bid <= price.value <= book.ask)
      && (price.Some? && side.Buy? ==> price.value <= book.ask - tick)
      && (price.Some? && side.Sell? ==> price.value >= book.bid + tick)
      && (price.Some? && mode.ExitingAggressive? ==> price.value == if side.Buy? then book.ask - tick else book.bid + tick)
  {
    hide TickAligned;
    var bid, ask := book.bid, book.ask;
    var ticks := SpreadTicks(bid, ask, tick);
    SpreadIsTicks(bid, ask, tick);
    if ticks.Some? {
      NeighboursAligned(bid, tick);
      NeighboursAligned(ask, tick);
    }
  }

  // ----- Exit trades -----

  datatype Trade = Trade(key: string, venue: Venue, market: nat, exchangeAt: Option<int>, receivedAt: int, quantity: real, price: real,
                         aggressor: Option<Side>, matched: Option<bool>)

  /** At least one tick beyond a resting price, taken by the other side. */
  predicate Through(side: Side, limit: real, tick: Positive, trade: Trade) {
    if side.Buy? then trade.aggressor == Some(VenueEvidence.Sell) && trade.price <= limit - tick
    else trade.aggressor == Some(VenueEvidence.Buy) && trade.price >= limit + tick
  }

  function Total(trades: seq<Trade>): real {
    if trades == [] then 0.0 else Total(trades[..|trades| - 1]) + trades[|trades| - 1].quantity
  }

  predicate DistinctKeys(trades: seq<Trade>) {
    forall i, j | 0 <= i < j < |trades| :: trades[i].key != trades[j].key
  }
}

/**
 What the order gate is for: an order it lets through can be filled at once, in full, and at its limit or better.
 */
module OrderGate {
  import opened Wrappers
  import opened DepthVwap
  import VenueEvidence
  import OrderBooks

  function DepthOf(levels: seq<VenueEvidence.Level>): (depth: seq<OrderBooks.Level>)
    ensures |depth| == |levels|
    ensures forall i | 0 <= i < |levels| :: depth[i] == OrderBooks.Level(levels[i].price, levels[i].qty)
  {
    if levels == [] then [] else [OrderBooks.Level(levels[0].price, levels[0].qty)] + DepthOf(levels[1..])
  }

  lemma {:induction false} NothingExecutable(levels: seq<VenueEvidence.Level>, side: VenueEvidence.Side, limit: real)
    requires forall level <- levels :: if side.Buy? then level.price > limit else level.price < limit
    ensures VenueEvidence.LevelQty(VenueEvidence.Executable(levels, Some(side), limit)) == 0.0
  {
    if levels != [] {
      NothingExecutable(levels[1..], side, limit);
      assert VenueEvidence.Executable(levels, Some(side), limit) == VenueEvidence.Executable(levels[1..], Some(side), limit);
    }
  }

  lemma ExecutableFirst(levels: seq<VenueEvidence.Level>, side: VenueEvidence.Side, limit: real)
    requires levels != [] && if side.Buy? then levels[0].price <= limit else levels[0].price >= limit
    ensures VenueEvidence.LevelQty(VenueEvidence.Executable(levels, Some(side), limit))
         == levels[0].qty + VenueEvidence.LevelQty(VenueEvidence.Executable(levels[1..], Some(side), limit))
  {
    var rest := VenueEvidence.Executable(levels[1..], Some(side), limit);
    assert ([levels[0]] + rest)[1..] == rest;
  }

  /** On best-first levels, quantity executable at the limit is quantity the front of the book gives at the limit or better. */
  lemma {:induction false} FrontWithinLimit(levels: seq<VenueEvidence.Level>, side: VenueEvidence.Side, limit: real, quantity: real)
    requires forall level <- levels :: level.qty > 0.0
    requires forall i, j | 0 <= i < j < |levels| :: if side.Buy? then levels[i].price <= levels[j].price else levels[i].price >= levels[j].price
    requires 0.0 <= quantity <= VenueEvidence.LevelQty(VenueEvidence.Executable(levels, Some(side), limit))
    ensures quantity <= Depth(DepthOf(levels))
    ensures var notional := Greedy(DepthOf(levels), quantity);
      if side.Buy? then notional <= Cost(quantity, limit) else notional >= Cost(quantity, limit)
  {
    hide Cost;
    if levels == [] {
      CostSplit(0.0, 0.0, limit);
    } else {
      var first, rest := levels[0], levels[1..];
      assert DepthOf(levels)[1..] == DepthOf(rest);
      if if side.Buy? then first.price <= limit else first.price >= limit {
        var taken := Min(quantity, first.qty);
        ExecutableFirst(levels, side, limit);
        ExecutableSized(rest, side, limit);
        FrontWithinLimit(rest, side, limit, quantity - taken);
        CostSplit(taken, quantity - taken, limit);
        assert taken + (quantity - taken) == quantity;
        if side.Buy? { CostOrder(taken, first.price, limit); } else { CostOrder(taken, limit, first.price); }
      } else {
        NothingExecutable(levels, side, limit);
        NothingTaken(DepthOf(levels), limit);
      }
    }
  }

  lemma {:induction false} ExecutableSized(levels: seq<VenueEvidence.Level>, side: VenueEvidence.Side, limit: real)
    requires forall level <- levels :: level.qty > 0.0
    ensures VenueEvidence.LevelQty(VenueEvidence.Executable(levels, Some(side), limit)) >= 0.0
  {
    if levels != [] {
      ExecutableSized(levels[1..], side, limit);
      if if side.Buy? then levels[0].price <= limit else levels[0].price >= limit {
        ExecutableFirst(levels, side, limit);
      } else {
        assert VenueEvidence.Executable(levels, Some(side), limit) == VenueEvidence.Executable(levels[1..], Some(side), limit);
      }
    }
  }

  lemma NothingTaken(levels: seq<OrderBooks.Level>, limit: real)
    requires Sized(levels)
    ensures Greedy(levels, 0.0) == 0.0 && Cost(0.0, limit) == 0.0 && Depth(levels) >= 0.0
  {
    GreedyNothing(levels);
    DepthPositive(levels);
  }

  /** What validated levels are: positive and best first. */
  lemma ValidatedLevels(levels: seq<VenueEvidence.Level>, tick: real, step: real, descending: bool)
    ensures VenueEvidence.ValidateLevels(levels, tick, step, descending).Ok? ==>
      && (forall level <- levels :: level.price > 0.0 && level.qty > 0.0)
      && (forall i, j | 0 <= i < j < |levels| :: if descending then levels[i].price > levels[j].price else levels[i].price < levels[j].price)
  {
    if VenueEvidence.ValidateLevels(levels, tick, step, descending).Ok? {
      forall i, j | 0 <= i < j < |levels|
        ensures if descending then levels[i].price > levels[j].price else levels[i].price < levels[j].price
      {
        Chain(levels, descending, i, j);
      }
    }
  }

  lemma {:induction false} Chain(levels: seq<VenueEvidence.Level>, descending: bool, i: nat, j: nat)
    requires i < j < |levels|
    requires forall k | 0 < k < |levels| :: if descending then levels[k - 1].price > levels[k].price else levels[k - 1].price < levels[k].price
    ensures if descending then levels[i].price > levels[j].price else levels[i].price < levels[j].price
    decreases j - i
  {
    if i + 1 < j {
      Chain(levels, descending, i, j - 1);
    }
  }

  lemma GateValidatesLevels(ev: VenueEvidence.Evidence, v: VenueEvidence.OrderVector, qty: real, price: real)
    ensures VenueEvidence.ValidateOrderGate(ev, v, qty, price).Ok? ==>
      && v.side.Some? && qty > 0.0
      && (var buy := v.side == Some(VenueEvidence.Buy); var counter := if buy then ev.asks else ev.bids;
          && VenueEvidence.ValidateLevels(counter, ev.market.minPriceChange, ev.market.minOrderSizeChange, !buy).Ok?
          && qty <= VenueEvidence.LevelQty(VenueEvidence.Executable(counter, v.side, price)))
  {
    hide VenueEvidence.ValidateLevels, VenueEvidence.LevelQty, VenueEvidence.Executable, VenueEvidence.ValidateCommon, VenueEvidence.FirstFee,
      VenueEvidence.FirstLeverage, VenueEvidence.OnGrid;
  }

  /** An order through the gate has a price for its whole quantity on the other side of the book, at its limit or better. */
  lemma GatedOrderIsFillable(ev: VenueEvidence.Evidence, v: VenueEvidence.OrderVector, qty: real, price: real)
    ensures VenueEvidence.ValidateOrderGate(ev, v, qty, price).Ok? ==>
      var counter := DepthOf(if v.side == Some(VenueEvidence.Buy) then ev.asks else ev.bids);
      var vwap := ExactVwap(qty, counter);
      && vwap.Ok? && vwap.value.price.Some?
      && (if v.side == Some(VenueEvidence.Buy) then vwap.value.price.value <= price else vwap.value.price.value >= price)
  {
    hide VenueEvidence.ValidateOrderGate, VenueEvidence.LevelQty, VenueEvidence.Executable, VenueEvidence.ValidateLevels, Greedy, Depth, Walk;
    GateValidatesLevels(ev, v, qty, price);
    if VenueEvidence.ValidateOrderGate(ev, v, qty, price).Ok? {
      var buy := v.side == Some(VenueEvidence.Buy);
      var counter := if buy then ev.asks else ev.bids;
      ValidatedLevels(counter, ev.market.minPriceChange, ev.market.minOrderSizeChange, !buy);
      FrontWithinLimit(counter, v.side.value, price, qty);
      PositiveDepth(counter);
      VwapIffDepth(qty, DepthOf(counter));
      AverageWithin(Greedy(DepthOf(counter), qty), qty, price);
    }
  }

  lemma PositiveDepth(levels: seq<VenueEvidence.Level>)
    requires forall level <- levels :: level.price > 0.0 && level.qty > 0.0
    ensures Positive(DepthOf(levels))
  {
    forall level <- DepthOf(levels) ensures level.price > 0.0 && level.quantity > 0.0 {
      var i :| 0 <= i < |levels| && DepthOf(levels)[i] == level;
      assert levels[i] in levels;
    }
  }

  lemma AverageWithin(notional: real, quantity: real, limit: real)
    requires quantity > 0.0
    ensures notional <= Cost(quantity, limit) ==> notional / quantity <= limit
    ensures notional >= Cost(quantity, limit) ==> notional / quantity >= limit
  {
    var average := notional / quantity;
    assert notional == average * quantity;
    if notional <= Cost(quantity, limit) {
      Ordered(quantity, average, limit);
    }
    if notional >= Cost(quantity, limit) {
      Ordered(quantity, limit, average);
    }
  }
}

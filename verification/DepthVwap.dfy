/**
 The average price of taking a quantity from the top of a book, level by level.
 */
module DepthVwap {
  import opened Wrappers
  import opened OrderBooks

  datatype Vwap = Vwap(requested: real, filled: real, notional: real, price: Option<real>)

  function Min(a: real, b: real): real {
    if a <= b then a else b
  }

  function Cost(quantity: real, price: real): real {
    quantity * price
  }

  /** What is left to take, and the notional so far, walking the levels in order. */
  function Walk(levels: seq<Level>, quantity: real, remaining: real, notional: real): Result<Vwap, string>
    requires quantity > 0.0
  {
    if levels == [] then Ok(Vwap(quantity, quantity - remaining, notional, None))
    else if levels[0].price <= 0.0 || levels[0].quantity <= 0.0 then Err("BOOK_LEVEL_NOT_POSITIVE")
    else
      var taken := Min(remaining, levels[0].quantity);
      var total := notional + Cost(taken, levels[0].price);
      if remaining - taken == 0.0 then Ok(Vwap(quantity, quantity, total, Some(total / quantity)))
      else Walk(levels[1..], quantity, remaining - taken, total)
  }

  function ExactVwap(quantity: real, levels: seq<Level>): Result<Vwap, string> {
    if quantity <= 0.0 then Err("QUANTITY_NOT_POSITIVE") else Walk(levels, quantity, quantity, 0.0)
  }

  method ExactQuantityVwap(quantity: real, levels: seq<Level>) returns (result: Result<Vwap, string>)
    ensures result == ExactVwap(quantity, levels)
  {
    if quantity <= 0.0 { return Err("QUANTITY_NOT_POSITIVE"); }
    var remaining, notional := quantity, 0.0;
    for k := 0 to |levels|
      invariant Walk(levels, quantity, quantity, 0.0) == Walk(levels[k..], quantity, remaining, notional)
    {
      assert levels[k..][1..] == levels[k + 1..];
      var level := levels[k];
      if level.price <= 0.0 || level.quantity <= 0.0 { return Err("BOOK_LEVEL_NOT_POSITIVE"); }
      var taken := Min(remaining, level.quantity);
      notional := notional + Cost(taken, level.price);
      remaining := remaining - taken;
      if remaining == 0.0 {
        return Ok(Vwap(quantity, quantity, notional, Some(notional / quantity)));
      }
    }
    return Ok(Vwap(quantity, quantity - remaining, notional, None));
  }

  // ----- Greedy and any other way of taking -----

  predicate Positive(levels: seq<Level>) {
    forall level <- levels :: level.price > 0.0 && level.quantity > 0.0
  }

  function Depth(levels: seq<Level>): real {
    if levels == [] then 0.0 else levels[0].quantity + Depth(levels[1..])
  }

  /** Notional of taking from the front. */
  function Greedy(levels: seq<Level>, quantity: real): real {
    if levels == [] then 0.0
    else Cost(Min(quantity, levels[0].quantity), levels[0].price)
         + Greedy(levels[1..], quantity - Min(quantity, levels[0].quantity))
  }

  /** Any way of taking from the levels, within their sizes. */
  predicate Allocation(takes: seq<real>, levels: seq<Level>) {
    |takes| == |levels| && forall i | 0 <= i < |levels| :: 0.0 <= takes[i] <= levels[i].quantity
  }

  function Sum(takes: seq<real>): real {
    if takes == [] then 0.0 else takes[0] + Sum(takes[1..])
  }

  function Notional(takes: seq<real>, levels: seq<Level>): real
    requires |takes| == |levels|
  {
    if takes == [] then 0.0 else Cost(takes[0], levels[0].price) + Notional(takes[1..], levels[1..])
  }

  /** Cheapest first. */
  predicate Ascending(levels: seq<Level>) {
    forall i, j | 0 <= i < j < |levels| :: levels[i].price <= levels[j].price
  }

  predicate Descending(levels: seq<Level>) {
    forall i, j | 0 <= i < j < |levels| :: levels[i].price >= levels[j].price
  }

  predicate Sized(levels: seq<Level>) {
    forall level <- levels :: level.quantity > 0.0
  }

  lemma {:induction false} DepthPositive(levels: seq<Level>)
    requires Sized(levels)
    ensures Depth(levels) >= 0.0 && (levels != [] ==> Depth(levels) > 0.0)
  {
    if levels != [] {
      DepthPositive(levels[1..]);
    }
  }

  lemma {:induction false} GreedyNothing(levels: seq<Level>)
    requires Sized(levels)
    ensures Greedy(levels, 0.0) == 0.0
  {
    if levels != [] {
      GreedyNothing(levels[1..]);
    }
  }

  lemma {:induction false} WalkIsGreedy(levels: seq<Level>, quantity: real, remaining: real, notional: real)
    requires Positive(levels) && quantity > 0.0 && remaining > 0.0
    ensures var taken := Min(remaining, Depth(levels)); var total := notional + Greedy(levels, taken);
      Walk(levels, quantity, remaining, notional)
      == if remaining <= Depth(levels) then Ok(Vwap(quantity, quantity, total, Some(total / quantity)))
         else Ok(Vwap(quantity, quantity - remaining + Depth(levels), total, None))
  {
    hide Cost;
    if levels != [] {
      var level, rest := levels[0], levels[1..];
      var taken := Min(remaining, Depth(levels));
      DepthPositive(rest);
      GreedyNothing(rest);
      if remaining > level.quantity {
        var spent := notional + Cost(level.quantity, level.price);
        WalkIsGreedy(rest, quantity, remaining - level.quantity, spent);
        assert Min(remaining - level.quantity, Depth(rest)) == taken - level.quantity;
        assert spent + Greedy(rest, taken - level.quantity) == notional + Greedy(levels, taken);
      } else {
        assert notional + Cost(remaining, level.price) == notional + Greedy(levels, taken);
      }
    }
  }

  /** A price is returned exactly when the depth suffices, and the notional is that of taking from the front. */
  lemma VwapIffDepth(quantity: real, levels: seq<Level>)
    requires Positive(levels) && quantity > 0.0
    ensures var vwap := ExactVwap(quantity, levels);
      && vwap.Ok? && vwap.value.requested == quantity && vwap.value.filled == Min(quantity, Depth(levels))
      && vwap.value.notional == Greedy(levels, vwap.value.filled)
      && (vwap.value.price.Some? <==> quantity <= Depth(levels))
      && (vwap.value.price.Some? ==> vwap.value.price.value == Greedy(levels, quantity) / quantity)
  {
    WalkIsGreedy(levels, quantity, quantity, 0.0);
  }

  lemma CostSplit(a: real, b: real, price: real)
    ensures Cost(a + b, price) == Cost(a, price) + Cost(b, price)
    ensures Cost(a - b, price) == Cost(a, price) - Cost(b, price)
  {
  }

  lemma CostOrder(quantity: real, low: real, high: real)
    requires quantity >= 0.0 && low <= high
    ensures Cost(quantity, low) <= Cost(quantity, high)
  {
  }

  /** Each further unit costs at least the cheapest price on offer. */
  lemma {:induction false} Marginal(levels: seq<Level>, less: real, more: real, price: real)
    requires Sized(levels) && 0.0 <= less <= more <= Depth(levels) && forall level <- levels :: price <= level.price
    ensures Greedy(levels, more) - Greedy(levels, less) >= Cost(more - less, price)
  {
    hide Cost;
    if levels == [] {
      CostSplit(0.0, 0.0, price);
    } else {
      var first, rest := levels[0], levels[1..];
      var a, b := Min(less, first.quantity), Min(more, first.quantity);
      DepthPositive(rest);
      Marginal(rest, less - a, more - b, price);
      CostSplit(b, a, first.price);
      CostOrder(b - a, price, first.price);
      CostSplit(b - a, (more - b) - (less - a), price);
      assert more - less == (b - a) + ((more - b) - (less - a));
    }
  }

  lemma {:induction false} TakesFit(levels: seq<Level>, takes: seq<real>)
    requires Allocation(takes, levels)
    ensures 0.0 <= Sum(takes) <= Depth(levels)
  {
    if levels != [] {
      TakesFit(levels[1..], takes[1..]);
    }
  }

  /** No way of taking a quantity within the level sizes costs less than taking from the front. */
  lemma {:induction false} GreedyIsCheapest(levels: seq<Level>, takes: seq<real>)
    requires Sized(levels) && Ascending(levels) && Allocation(takes, levels)
    ensures 0.0 <= Sum(takes) <= Depth(levels) && Greedy(levels, Sum(takes)) <= Notional(takes, levels)
  {
    hide Cost;
    TakesFit(levels, takes);
    if levels != [] {
      var first, rest, q := levels[0], levels[1..], Sum(takes);
      TakesFit(rest, takes[1..]);
      GreedyIsCheapest(rest, takes[1..]);
      FrontFirst(first, rest, takes[0], q);
    }
  }

  /** Taking t from the first level and the rest greedily costs at least taking the first level greedily too. */
  lemma FrontFirst(first: Level, rest: seq<Level>, t: real, q: real)
    requires Sized(rest) && (forall level <- rest :: first.price <= level.price)
    requires 0.0 <= t <= first.quantity && t <= q && q - t <= Depth(rest)
    ensures var g := Min(q, first.quantity);
      Cost(g, first.price) + Greedy(rest, q - g) <= Cost(t, first.price) + Greedy(rest, q - t)
  {
    hide Cost, Greedy;
    var g := Min(q, first.quantity);
    Marginal(rest, q - g, q - t, first.price);
    CostSplit(g, t, first.price);
    assert (q - t) - (q - g) == g - t;
  }

  /** While `less` stays within the best level, that level's price divides. */
  lemma FirstLevelDivides(levels: seq<Level>, less: real, more: real)
    requires Sized(levels) && Ascending(levels) && 0.0 < less <= more <= Depth(levels) && less <= levels[0].quantity
    ensures Greedy(levels, less) <= Cost(less, levels[0].price)
    ensures Cost(more - less, levels[0].price) <= Greedy(levels, more) - Greedy(levels, less)
  {
    hide Cost;
    var price, rest := levels[0].price, levels[1..];
    GreedyNothing(rest);
    DepthPositive(rest);
    var b := Min(more, levels[0].quantity);
    Marginal(rest, 0.0, more - b, price);
    CostSplit(b, less, price);
    CostSplit(b - less, more - b, price);
    assert more - less == (b - less) + (more - b);
  }

  /** A price between what the first `less` cost and what the rest up to `more` costs. */
  lemma {:induction false} Watershed(levels: seq<Level>, less: real, more: real) returns (price: real)
    requires Sized(levels) && Ascending(levels) && 0.0 < less <= more <= Depth(levels)
    ensures exists level <- levels :: level.price == price
    ensures Greedy(levels, less) <= Cost(less, price) && Cost(more - less, price) <= Greedy(levels, more) - Greedy(levels, less)
  {
    hide Cost;
    var first, rest := levels[0], levels[1..];
    GreedyNothing(rest);
    DepthPositive(rest);
    if less <= first.quantity {
      price := first.price;
      assert first in levels;
      FirstLevelDivides(levels, less, more);
    } else {
      price := Watershed(rest, less - first.quantity, more - first.quantity);
      var level :| level in rest && level.price == price;
      assert level in levels;
      CostOrder(first.quantity, first.price, price);
      CostSplit(first.quantity, less - first.quantity, price);
      assert less == first.quantity + (less - first.quantity);
      assert more - less == (more - first.quantity) - (less - first.quantity);
    }
  }

  /** Convexity in numbers: a below less * price, the increment above (more - less) * price. */
  lemma Averages(a: real, b: real, less: real, more: real, price: real)
    requires 0.0 < less <= more && a <= less * price && (more - less) * price <= b - a
    ensures a / less <= b / more
  {
    var x, y, rest := a / less, b / more, more - less;
    assert a == x * less && b == y * more;
    Ordered(less, x, price);
    Weigh(rest, x, price);
    assert rest * x <= b - a;
    assert x * more == x * less + rest * x <= b;
    Ordered(more, x, y);
  }

  lemma Ordered(weight: real, x: real, y: real)
    requires weight > 0.0 && x * weight <= weight * y
    ensures x <= y
  {
  }

  lemma Weigh(weight: real, x: real, y: real)
    requires weight >= 0.0 && x <= y
    ensures weight * x <= weight * y
  {
  }

  lemma AverageRises(levels: seq<Level>, less: real, more: real)
    requires Sized(levels) && Ascending(levels) && 0.0 < less <= more <= Depth(levels)
    ensures Greedy(levels, less) / less <= Greedy(levels, more) / more
  {
    hide Greedy, Depth;
    var price := Watershed(levels, less, more);
    Averages(Greedy(levels, less), Greedy(levels, more), less, more, price);
  }

  // ----- Selling: the same with every price negated -----

  function Negated(levels: seq<Level>): (negated: seq<Level>)
    ensures |negated| == |levels|
    ensures forall i | 0 <= i < |levels| :: negated[i] == Level(-levels[i].price, levels[i].quantity)
  {
    if levels == [] then [] else [Level(-levels[0].price, levels[0].quantity)] + Negated(levels[1..])
  }

  lemma {:induction false} NegatedGreedy(levels: seq<Level>, quantity: real)
    ensures Greedy(Negated(levels), quantity) == -Greedy(levels, quantity) && Depth(Negated(levels)) == Depth(levels)
  {
    if levels != [] {
      assert Negated(levels)[1..] == Negated(levels[1..]);
      NegatedGreedy(levels[1..], quantity - Min(quantity, levels[0].quantity));
    }
  }

  lemma {:induction false} NegatedNotional(takes: seq<real>, levels: seq<Level>)
    requires |takes| == |levels|
    ensures Notional(takes, Negated(levels)) == -Notional(takes, levels)
  {
    if levels != [] {
      assert Negated(levels)[1..] == Negated(levels[1..]);
      NegatedNotional(takes[1..], levels[1..]);
    }
  }

  // ----- Main results -----

  /** On asks cheapest first, a buy costs no more than any other way of taking the same quantity. */
  lemma BuyIsOptimal(asks: seq<Level>, takes: seq<real>)
    requires Positive(asks) && Ascending(asks) && Allocation(takes, asks) && Sum(takes) > 0.0
    ensures var vwap := ExactVwap(Sum(takes), asks);
      vwap.Ok? && vwap.value.price.Some? && vwap.value.notional <= Notional(takes, asks)
  {
    GreedyIsCheapest(asks, takes);
    VwapIffDepth(Sum(takes), asks);
  }

  /** On bids dearest first, a sale brings no less than any other way of giving the same quantity. */
  lemma SellIsOptimal(bids: seq<Level>, takes: seq<real>)
    requires Positive(bids) && Descending(bids) && Allocation(takes, bids) && Sum(takes) > 0.0
    ensures var vwap := ExactVwap(Sum(takes), bids);
      vwap.Ok? && vwap.value.price.Some? && vwap.value.notional >= Notional(takes, bids)
  {
    SizedNegated(bids);
    GreedyIsCheapest(Negated(bids), takes);
    NegatedGreedy(bids, Sum(takes));
    NegatedNotional(takes, bids);
    VwapIffDepth(Sum(takes), bids);
  }

  lemma SizedNegated(levels: seq<Level>)
    requires Positive(levels)
    ensures Sized(Negated(levels)) && (Descending(levels) ==> Ascending(Negated(levels)))
  {
    forall level <- Negated(levels) ensures level.quantity > 0.0 {
      var i :| 0 <= i < |levels| && Negated(levels)[i] == level;
      assert levels[i] in levels;
    }
  }

  /** More never averages better: a larger buy pays at least, and a larger sale gets at most, the smaller one's price. */
  lemma VwapWorsens(levels: seq<Level>, less: real, more: real)
    requires Positive(levels) && 0.0 < less <= more <= Depth(levels)
    ensures ExactVwap(less, levels).Ok? && ExactVwap(less, levels).value.price.Some?
    ensures ExactVwap(more, levels).Ok? && ExactVwap(more, levels).value.price.Some?
    ensures Ascending(levels) ==> ExactVwap(less, levels).value.price.value <= ExactVwap(more, levels).value.price.value
    ensures Descending(levels) ==> ExactVwap(less, levels).value.price.value >= ExactVwap(more, levels).value.price.value
  {
    hide Walk, Greedy, Depth;
    VwapIffDepth(less, levels);
    VwapIffDepth(more, levels);
    if Ascending(levels) {
      AverageRises(levels, less, more);
    }
    if Descending(levels) {
      SizedNegated(levels);
      NegatedGreedy(levels, less);
      NegatedGreedy(levels, more);
      AverageRises(Negated(levels), less, more);
      Opposite(Greedy(levels, less), less);
      Opposite(Greedy(levels, more), more);
    }
  }

  lemma Opposite(a: real, b: real)
    requires b > 0.0
    ensures (-a) / b == -(a / b)
  {
    assert ((-a) / b) * b == -a == -(a / b) * b;
  }
}

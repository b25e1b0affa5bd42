/**
 What the exit order keeps: versions are numbered in order and at most the last is open, the trades
 counted for it sum to its fill, and whatever has been closed stays as it is.
 */
module PaperDesk {
  import opened Wrappers
  import opened PaperMarket
  import opened PaperEngine

  /** Distinct trades seen by the engine, each fit to fill this order at this price. */
  ghost predicate Backing(trades: seq<Trade>, order: ExitOrder, limit: real, tick: Positive, processed: set<string>) {
    DistinctKeys(trades) && forall trade <- trades :: trade.key in processed && Eligible(order, limit, tick, trade)
  }

  /** The counted trades reach the order quantity, and without the last one they do not. */
  ghost predicate JustReaches(trades: seq<Trade>, quantity: real) {
    trades != [] && Total(trades[..|trades| - 1]) < quantity <= Total(trades)
  }

  ghost predicate Numbered(versions: seq<Version>) {
    forall i | 0 <= i < |versions| :: versions[i].number == i + 1
  }

  /** Only the last version may be open or filled. */
  ghost predicate Superseded(versions: seq<Version>) {
    forall i | 0 <= i < |versions| - 1 :: versions[i].status.Replaced? || versions[i].status.Cancelled?
  }

  ghost predicate DeskOk(desk: Desk, tick: Positive, processed: set<string>) {
    if desk.order.None? then desk.qualifying == map[]
    else
      var order := desk.order.value;
      && order.versions != [] && Numbered(order.versions) && Superseded(order.versions)
      && LastOk(desk, order, order.versions[|order.versions| - 1], tick, processed)
  }

  ghost predicate LastOk(desk: Desk, order: ExitOrder, last: Version, tick: Positive, processed: set<string>) {
    match last.status
    case Open =>
      && desk.qualifying.Keys <= {last.number}
      && Backing(desk.Counted(last.number), order, last.limit, tick, processed)
      && last.cumulative == Total(desk.Counted(last.number)) < order.quantity
    case Filled =>
      && desk.qualifying.Keys == {last.number}
      && Backing(desk.qualifying[last.number], order, last.limit, tick, processed)
      && last.cumulative == order.quantity && JustReaches(desk.qualifying[last.number], order.quantity)
    case _ => desk.qualifying == map[]
  }

  ghost predicate NotFilled(desk: Desk) {
    desk.Last().Some? ==> !desk.Last().value.status.Filled?
  }

  /** Versions are only added; number, mode and price of a version never change and a closed one is frozen. */
  ghost predicate DeskGrows(before: Desk, after: Desk) {
    before.order.Some? ==>
      && after.order.Some?
      && after.order.value.(versions := []) == before.order.value.(versions := [])
      && |before.order.value.versions| <= |after.order.value.versions|
      && forall i | 0 <= i < |before.order.value.versions| ::
        VersionGrows(before.order.value.versions[i], after.order.value.versions[i])
  }

  ghost predicate VersionGrows(before: Version, after: Version) {
    if before.status.Open? then
      && after.number == before.number && after.mode == before.mode && after.limit == before.limit
      && after.createdAt == before.createdAt && before.cumulative <= after.cumulative
    else after == before
  }

  lemma DeskGrowsTransitive(a: Desk, b: Desk, c: Desk)
    requires DeskGrows(a, b) && DeskGrows(b, c)
    ensures DeskGrows(a, c)
  {
    if a.order.Some? {
      forall i | 0 <= i < |a.order.value.versions|
        ensures VersionGrows(a.order.value.versions[i], c.order.value.versions[i])
      {
        assert VersionGrows(a.order.value.versions[i], b.order.value.versions[i]);
        assert VersionGrows(b.order.value.versions[i], c.order.value.versions[i]);
      }
    }
  }

  /** Rewriting the last, open, version without touching its identity is growth. */
  lemma WithLastGrows(desk: Desk, version: Version)
    requires desk.Active().Some? && VersionGrows(desk.Active().value, version)
    ensures DeskGrows(desk, desk.WithLast(version)) && desk.WithLast(version).Last() == Some(version)
  {
  }

  lemma WithLastNumbered(desk: Desk, version: Version)
    requires desk.Last().Some? && version.number == desk.Last().value.number
    requires Numbered(desk.order.value.versions) && Superseded(desk.order.value.versions)
    ensures Numbered(desk.WithLast(version).order.value.versions) && Superseded(desk.WithLast(version).order.value.versions)
  {
  }

  lemma CancelKeeps(desk: Desk, tick: Positive, processed: set<string>, reason: VersionReason, at: int)
    requires DeskOk(desk, tick, processed)
    ensures DeskOk(CancelVersion(desk, reason, at), tick, processed) && CancelVersion(desk, reason, at).Active().None?
    ensures DeskGrows(desk, CancelVersion(desk, reason, at))
    ensures NotFilled(desk) ==> NotFilled(CancelVersion(desk, reason, at))
  {
    if desk.Active().Some? {
      var v := desk.Active().value;
      var closed := v.(status := Cancelled, closedAt := Some(Latest(at, v.createdAt, v.checkedAt)), reason := Some(reason));
      WithLastGrows(desk, closed);
      WithLastNumbered(desk, closed);
      assert desk.qualifying - {v.number} == map[];
    }
  }

  lemma ReplaceKeeps(desk: Desk, tick: Positive, processed: set<string>, reason: VersionReason, at: int)
    requires DeskOk(desk, tick, processed) && desk.Active().Some?
    ensures DeskOk(ReplaceVersion(desk, reason, at), tick, processed) && ReplaceVersion(desk, reason, at).Active().None?
    ensures DeskGrows(desk, ReplaceVersion(desk, reason, at)) && NotFilled(ReplaceVersion(desk, reason, at))
  {
    var v := desk.Active().value;
    var closed := v.(status := Replaced, closedAt := Some(at), reason := Some(reason));
    WithLastGrows(desk, closed);
    WithLastNumbered(desk, closed);
    assert desk.qualifying - {v.number} == map[];
  }

  lemma NewVersionKeeps(desk: Desk, tick: Positive, processed: set<string>, p: Position, price: Positive, mode: Phase, at: int)
    requires DeskOk(desk, tick, processed) && desk.Active().None? && NotFilled(desk)
    ensures DeskOk(NewVersion(desk, p, price, mode, at), tick, processed)
    ensures DeskGrows(desk, NewVersion(desk, p, price, mode, at)) && NotFilled(NewVersion(desk, p, price, mode, at))
  {
    var after := NewVersion(desk, p, price, mode, at);
    var versions := after.order.value.versions;
    var last := versions[|versions| - 1];
    assert after.qualifying == map[];
    assert after.Counted(last.number) == [];
    assert Numbered(versions) && Superseded(versions) by {
      if desk.order.Some? {
        var was := desk.order.value.versions;
        assert forall i | 0 <= i < |was| :: versions[i] == was[i];
      }
    }
  }

  lemma EnsureKeeps(desk: Desk, tick: Positive, processed: set<string>, p: Position, price: Option<Positive>, mode: Phase, at: int,
                    transition: bool)
    requires DeskOk(desk, tick, processed) && NotFilled(desk)
    ensures var after := EnsureVersion(desk, p, price, mode, at, transition);
      DeskOk(after, tick, processed) && DeskGrows(desk, after) && NotFilled(after)
  {
    hide CancelVersion, ReplaceVersion, NewVersion, DeskOk, DeskGrows, NotFilled;
    var active := desk.Active();
    if price.None? {
      GrowsReflexive(desk);
    } else if active.None? {
      NewVersionKeeps(desk, tick, processed, p, price.value, mode, at);
    } else if transition || (at - active.value.checkedAt >= REPRICE && active.value.limit != price.value) {
      var reason := if transition then AggressiveTransition else PriceChanged;
      var replaced := ReplaceVersion(desk, reason, at);
      ReplaceKeeps(desk, tick, processed, reason, at);
      NewVersionKeeps(replaced, tick, processed, p, price.value, mode, at);
      DeskGrowsTransitive(desk, replaced, NewVersion(replaced, p, price.value, mode, at));
    } else if at - active.value.checkedAt < REPRICE {
      GrowsReflexive(desk);
    } else {
      CheckedKeeps(desk, tick, processed, at);
    }
  }

  lemma GrowsReflexive(desk: Desk)
    ensures DeskGrows(desk, desk)
  {
  }

  lemma CheckedKeeps(desk: Desk, tick: Positive, processed: set<string>, at: int)
    requires DeskOk(desk, tick, processed) && desk.Active().Some?
    ensures var after := desk.WithLast(desk.Active().value.(checkedAt := at));
      DeskOk(after, tick, processed) && DeskGrows(desk, after) && NotFilled(after)
  {
    var version := desk.Active().value.(checkedAt := at);
    WithLastGrows(desk, version);
    WithLastNumbered(desk, version);
  }

  lemma SeenKeeps(desk: Desk, tick: Positive, processed: set<string>, key: string)
    requires DeskOk(desk, tick, processed)
    ensures DeskOk(desk, tick, processed + {key})
  {
  }

  // ----- Counting a trade -----

  function Count(desk: Desk, trade: Trade): Desk
    requires desk.Active().Some?
  {
    var v := desk.Active().value;
    desk.(qualifying := desk.qualifying[v.number := desk.Counted(v.number) + [trade]])
  }

  lemma TradesGrow(trades: seq<Trade>, trade: Trade, order: ExitOrder, limit: real, tick: Positive, processed: set<string>)
    requires Backing(trades, order, limit, tick, processed) && trade.key !in processed && Eligible(order, limit, tick, trade)
    ensures Backing(trades + [trade], order, limit, tick, processed + {trade.key})
    ensures Total(trades + [trade]) == Total(trades) + trade.quantity
    ensures Total(trades) < order.quantity <= Total(trades + [trade]) ==> JustReaches(trades + [trade], order.quantity)
  {
    var all := trades + [trade];
    assert all[..|all| - 1] == trades;
    forall i, j | 0 <= i < j < |all| ensures all[i].key != all[j].key {
      assert all[i] in trades;
      if j < |trades| { assert trades[j].key == all[j].key; }
    }
  }

  lemma CountBacks(desk: Desk, tick: Positive, processed: set<string>, trade: Trade)
    requires DeskOk(desk, tick, processed) && desk.Active().Some? && trade.key !in processed
    requires Eligible(desk.order.value, desk.Active().value.limit, tick, trade)
    ensures var v := desk.Active().value; var after := Count(desk, trade);
      && after.qualifying.Keys == {v.number} && v.cumulative == Total(desk.Counted(v.number)) < desk.order.value.quantity
      && after.qualifying[v.number] == desk.Counted(v.number) + [trade]
      && Backing(after.qualifying[v.number], desk.order.value, v.limit, tick, processed + {trade.key})
      && Total(after.qualifying[v.number]) == v.cumulative + trade.quantity
      && (v.cumulative + trade.quantity >= desk.order.value.quantity ==>
            JustReaches(after.qualifying[v.number], desk.order.value.quantity))
  {
    var v := desk.Active().value;
    TradesGrow(desk.Counted(v.number), trade, desk.order.value, v.limit, tick, processed);
  }

  lemma AccumulateKeeps(desk: Desk, tick: Positive, processed: set<string>, trade: Trade)
    requires DeskOk(desk, tick, processed) && desk.Active().Some? && trade.key !in processed
    requires Eligible(desk.order.value, desk.Active().value.limit, tick, trade)
    requires desk.Active().value.cumulative + trade.quantity < desk.order.value.quantity
    ensures var v := desk.Active().value;
      var after := Count(desk, trade).WithLast(v.(cumulative := v.cumulative + trade.quantity));
      DeskOk(after, tick, processed + {trade.key}) && DeskGrows(desk, after) && NotFilled(after)
  {
    hide Backing, Eligible, Total, Numbered, Superseded, JustReaches;
    var v := desk.Active().value;
    assert trade.quantity > 0.0 by { Quantified(desk.order.value, v.limit, tick, trade); }
    CountBacks(desk, tick, processed, trade);
    var version := v.(cumulative := v.cumulative + trade.quantity);
    SameTerms(Count(desk, trade).qualifying[v.number], desk.order.value, Count(desk, trade).WithLast(version).order.value, v.limit, tick,
              processed + {trade.key});
    WithLastGrows(Count(desk, trade), version);
    WithLastNumbered(Count(desk, trade), version);
  }

  /** What backs an order does not depend on its versions. */
  lemma SameTerms(trades: seq<Trade>, a: ExitOrder, b: ExitOrder, limit: real, tick: Positive, processed: set<string>)
    requires Backing(trades, a, limit, tick, processed) && a.(versions := []) == b.(versions := [])
    ensures Backing(trades, b, limit, tick, processed)
  {
  }

  lemma Quantified(order: ExitOrder, limit: real, tick: Positive, trade: Trade)
    requires Eligible(order, limit, tick, trade)
    ensures trade.quantity > 0.0 && trade.exchangeAt.Some?
  {
  }

  /** The trade that reaches the quantity: the version fills on exactly the trades counted for it. */
  lemma FillKeeps(desk: Desk, tick: Positive, processed: set<string>, trade: Trade, at: int)
    requires DeskOk(desk, tick, processed) && desk.Active().Some? && trade.key !in processed
    requires Eligible(desk.order.value, desk.Active().value.limit, tick, trade)
    requires desk.Active().value.cumulative + trade.quantity >= desk.order.value.quantity
    ensures var after := FillVersion(Count(desk, trade), at);
      DeskOk(after, tick, processed + {trade.key}) && DeskGrows(desk, after) && after.Active().None?
  {
    hide Backing, Eligible, JustReaches, Total, Numbered, Superseded;
    var v := desk.Active().value;
    CountBacks(desk, tick, processed, trade);
    var version := v.(cumulative := desk.order.value.quantity, status := Filled, closedAt := Some(at));
    SameTerms(Count(desk, trade).qualifying[v.number], desk.order.value, Count(desk, trade).WithLast(version).order.value, v.limit, tick,
              processed + {trade.key});
    WithLastGrows(Count(desk, trade), version);
    WithLastNumbered(Count(desk, trade), version);
  }

  /** A counted trade whose close is suspended is dropped with its version. */
  lemma SuspendKeeps(desk: Desk, tick: Positive, processed: set<string>, trade: Trade, reason: VersionReason, at: int)
    requires DeskOk(desk, tick, processed) && desk.Active().Some?
    ensures CancelVersion(Count(desk, trade), reason, at) == CancelVersion(desk, reason, at)
    ensures DeskOk(CancelVersion(desk, reason, at), tick, processed + {trade.key})
  {
    var v := desk.Active().value;
    CancelKeeps(desk, tick, processed, reason, at);
    SeenKeeps(CancelVersion(desk, reason, at), tick, processed, trade.key);
    assert Count(desk, trade).qualifying - {v.number} == desk.qualifying - {v.number};
  }
}

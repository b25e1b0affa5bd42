/**
 Funding settlements: the statuses a row may climb through, what a set of rows is worth,
 and the sorted table they are kept in.
 */
module Funding {
  import opened Wrappers

  datatype Status = Pending | Estimated | AppliedRate | Unresolved | SkippedNotOpen | SkippedClosed
  {
    predicate Skipped() {
      SkippedNotOpen? || SkippedClosed?
    }
  }

  /** Venues in the order of their names; a market stands for its position in name order. */
  datatype Venue = Extended | Lighter | Nado | Risex {
    function Rank(): nat {
      match this case Extended => 0 case Lighter => 1 case Nado => 2 case Risex => 3
    }
  }

  datatype Key = Key(at: int, venue: Venue, market: nat) {
    predicate Before(other: Key) {
      || at < other.at
      || (at == other.at && venue.Rank() < other.venue.Rank())
      || (at == other.at && venue == other.venue && market < other.market)
    }
  }

  datatype Settlement = Settlement(key: Key, status: Status, cash: Option<real>)

  // ----- Transitions -----

  predicate AllowedTransition(before: Status, after: Status) {
    match before
    case Pending => !after.Pending?
    case Estimated => after.AppliedRate? || after.Unresolved?
    case Unresolved => after.AppliedRate?
    case _ => false
  }

  function ReplaceSettlement(current: Settlement, status: Status, cash: Option<real>): Result<Settlement, string> {
    var _ :- Need(AllowedTransition(current.status, status), "INVALID_SETTLEMENT_TRANSITION");
    var kept := if status.Unresolved? && cash.None? then current.cash else cash;
    var _ :- Need(!(status.Skipped() && kept.Some?), "SKIPPED_SETTLEMENT_CANNOT_CONTAIN_CASH");
    var _ :- Need(!((status.Estimated? || status.AppliedRate?) && kept.None?), "SETTLEMENT_REQUIRES_CASH");
    Ok(Settlement(current.key, status, kept))
  }

  /** Height in the order of statuses; every allowed transition climbs. */
  function Height(status: Status): nat {
    match status
    case Pending => 0
    case Estimated => 1
    case Unresolved => 2
    case _ => 3
  }

  /** Statuses a row may reach in any number of steps. */
  predicate Reaches(before: Status, after: Status) {
    before == after || AllowedTransition(before, after)
  }

  /** Allowed transitions compose, and each of them climbs: a row changes status at most three times. */
  lemma StatusesClimb(path: seq<Status>)
    requires path != [] && forall i | 0 < i < |path| :: AllowedTransition(path[i - 1], path[i])
    ensures |path| <= 4
    ensures forall i, j | 0 <= i < j < |path| :: Height(path[i]) < Height(path[j]) && AllowedTransition(path[i], path[j])
  {
    forall i, j | 0 <= i < j < |path| ensures Height(path[i]) + (j - i) <= Height(path[j]) && AllowedTransition(path[i], path[j]) {
      PathClimbs(path, i, j);
    }
    if |path| > 1 {
      PathClimbs(path, 0, |path| - 1);
    }
  }

  lemma {:induction false} PathClimbs(path: seq<Status>, i: nat, j: nat)
    requires i < j < |path| && forall k | 0 < k < |path| :: AllowedTransition(path[k - 1], path[k])
    ensures Height(path[i]) + (j - i) <= Height(path[j]) && AllowedTransition(path[i], path[j])
    decreases j - i
  {
    if i + 1 < j {
      PathClimbs(path, i, j - 1);
    }
    assert AllowedTransition(path[j - 1], path[j]);
  }

  // ----- Value -----

  /** Cash of a row with authority over it; None when it is unresolved and unknown. */
  function AuthoritativeCash(row: Settlement): Option<real> {
    if row.status.Estimated? || row.status.AppliedRate? || row.status.Unresolved? then row.cash else Some(0.0)
  }

  function Recognized(rows: seq<Settlement>): Option<real> {
    if rows == [] then Some(0.0)
    else
      var first, rest := AuthoritativeCash(rows[0]), Recognized(rows[1..]);
      if first.None? || rest.None? then None else Some(first.value + rest.value)
  }

  /** The loop that stops at the first unknown row. */
  method RecognizedFunding(rows: seq<Settlement>) returns (total: Option<real>)
    ensures total == Recognized(rows)
  {
    var sum := 0.0;
    for k := 0 to |rows|
      invariant Recognized(rows).None? <==> Recognized(rows[k..]).None?
      invariant Recognized(rows).Some? ==> Recognized(rows).value == sum + Recognized(rows[k..]).value
    {
      assert rows[k..][1..] == rows[k + 1..];
      var cash := AuthoritativeCash(rows[k]);
      if cash.None? { return None; }
      sum := sum + cash.value;
    }
    return Some(sum);
  }

  predicate AppliedRateComplete(rows: seq<Settlement>) {
    forall row <- rows :: row.status.AppliedRate? || row.status.Skipped()
  }

  predicate SimulatedComplete(rows: seq<Settlement>) {
    rows != [] && forall row <- rows :: !row.status.Pending? && !row.status.Unresolved?
  }

  lemma {:induction false} UnknownRowHidesTotal(rows: seq<Settlement>, i: nat)
    requires i < |rows| && AuthoritativeCash(rows[i]).None?
    ensures Recognized(rows).None?
  {
    if i > 0 {
      UnknownRowHidesTotal(rows[1..], i - 1);
    }
  }

  lemma {:induction false} TotalUnknown(rows: seq<Settlement>)
    requires Recognized(rows).None?
    ensures exists row <- rows :: AuthoritativeCash(row).None?
  {
    if AuthoritativeCash(rows[0]).Some? {
      TotalUnknown(rows[1..]);
      var row :| row in rows[1..] && AuthoritativeCash(row).None?;
      assert row in rows;
    } else {
      assert rows[0] in rows;
    }
  }

  // ----- The sorted table -----

  ghost predicate Sorted(rows: seq<Settlement>) {
    forall i, j | 0 <= i < j < |rows| :: rows[i].key.Before(rows[j].key)
  }

  function RowAt(rows: seq<Settlement>, key: Key): (at: Option<nat>)
    ensures at.Some? ==> at.value < |rows| && rows[at.value].key == key
    ensures at.None? ==> forall row <- rows :: row.key != key
  {
    if rows == [] then None
    else if rows[0].key == key then Some(0)
    else match RowAt(rows[1..], key)
      case None => None
      case Some(at) => Some(at + 1)
  }

  /** Put a row under its key, keeping the table sorted. */
  function Upsert(rows: seq<Settlement>, row: Settlement): seq<Settlement> {
    if rows == [] || row.key.Before(rows[0].key) then [row] + rows
    else if row.key == rows[0].key then [row] + rows[1..]
    else [rows[0]] + Upsert(rows[1..], row)
  }

  lemma {:induction false} UpsertKeepsSorted(rows: seq<Settlement>, row: Settlement)
    requires Sorted(rows)
    ensures Sorted(Upsert(rows, row))
    ensures forall r :: r in Upsert(rows, row) <==> r == row || (r in rows && r.key != row.key)
  {
    if rows != [] {
      assert rows == [rows[0]] + rows[1..];
      if !row.key.Before(rows[0].key) && row.key != rows[0].key {
        UpsertKeepsSorted(rows[1..], row);
        assert forall r <- Upsert(rows[1..], row) :: rows[0].key.Before(r.key);
      } else if row.key.Before(rows[0].key) {
        assert forall r <- rows :: r.key != row.key;
      } else {
        assert forall r <- rows[1..] :: r.key != row.key;
      }
    }
  }

  /** Writing an existing key changes that row in place. */
  lemma {:induction false} UpsertInPlace(rows: seq<Settlement>, at: nat, row: Settlement)
    requires Sorted(rows) && at < |rows| && rows[at].key == row.key
    ensures Upsert(rows, row) == rows[at := row]
  {
    if at > 0 {
      assert rows[0].key.Before(rows[at].key);
      UpsertInPlace(rows[1..], at - 1, row);
    }
  }

  /** A row climbs or stays; its key is for ever. */
  ghost predicate Climbed(before: seq<Settlement>, after: seq<Settlement>) {
    forall row <- before :: exists later <- after :: later.key == row.key && Reaches(row.status, later.status)
  }

  lemma ClimbedTransitive(a: seq<Settlement>, b: seq<Settlement>, c: seq<Settlement>)
    requires Climbed(a, b) && Climbed(b, c)
    ensures Climbed(a, c)
  {
    forall row <- a ensures exists later <- c :: later.key == row.key && Reaches(row.status, later.status) {
      var mid :| mid in b && mid.key == row.key && Reaches(row.status, mid.status);
      var last :| last in c && last.key == mid.key && Reaches(mid.status, last.status);
      assert Reaches(row.status, last.status);
    }
  }

  /** The row an update writes over another; an identical update writes the same row. */
  function NewRow(current: Settlement, update: Settlement): Result<Settlement, string> {
    if current == update then Ok(current)
    else
      var _ :- Need(current.status != update.status, "CONFLICTING_DUPLICATE_STATUS");
      ReplaceSettlement(current, update.status, update.cash)
  }

  /** One settlement update, as the engine applies it. */
  function ApplyUpdate(rows: seq<Settlement>, update: Settlement): Result<seq<Settlement>, string> {
    match RowAt(rows, update.key)
    case None => Err("SETTLEMENT_KEY_NOT_REGISTERED")
    case Some(at) =>
      var row :- NewRow(rows[at], update);
      Ok(if row == rows[at] then rows else Upsert(rows, row))
  }

  lemma NewRowClimbs(current: Settlement, update: Settlement)
    ensures var row := NewRow(current, update);
      row.Ok? ==> row.value.key == current.key && row.value.status == update.status && Reaches(current.status, update.status)
  {
  }

  lemma {:induction false} RowAtIs(rows: seq<Settlement>, at: nat)
    requires Sorted(rows) && at < |rows|
    ensures RowAt(rows, rows[at].key) == Some(at)
  {
    if at > 0 {
      assert rows[0].key.Before(rows[at].key);
      var rest := rows[1..];
      assert forall i | 0 <= i < |rest| :: rest[i] == rows[i + 1];
      RowAtIs(rest, at - 1);
    }
  }

  /** An update rewrites the row under its key and nothing else. */
  lemma UpdatedRow(rows: seq<Settlement>, at: nat, update: Settlement)
    requires Sorted(rows) && at < |rows| && rows[at].key == update.key
    ensures var row := NewRow(rows[at], update);
      ApplyUpdate(rows, update) == if row.Ok? then Ok(rows[at := row.value]) else Err(row.error)
  {
    hide Upsert, NewRow;
    RowAtIs(rows, at);
    NewRowClimbs(rows[at], update);
    var row := NewRow(rows[at], update);
    if row.Ok? {
      assert rows[at := rows[at]] == rows;
      UpsertInPlace(rows, at, row.value);
    }
  }

  lemma RewriteKeepsTable(rows: seq<Settlement>, at: nat, row: Settlement)
    requires Sorted(rows) && at < |rows| && row.key == rows[at].key && Reaches(rows[at].status, row.status)
    ensures Sorted(rows[at := row]) && Climbed(rows, rows[at := row])
  {
    var after := rows[at := row];
    forall was <- rows ensures exists later <- after :: later.key == was.key && Reaches(was.status, later.status) {
      var i :| 0 <= i < |rows| && rows[i] == was;
      assert after[i] in after;
    }
  }

  /** An accepted update keeps the keys, the order and every other row, and the row it names climbs. */
  lemma UpdateClimbs(rows: seq<Settlement>, update: Settlement)
    requires Sorted(rows)
    ensures ApplyUpdate(rows, update).Ok? ==>
      exists at: int, row: Settlement :: 0 <= at < |rows| && rows[at].key == update.key == row.key && row.status == update.status
        && ApplyUpdate(rows, update).value == rows[at := row]
    ensures ApplyUpdate(rows, update).Ok? ==> Sorted(ApplyUpdate(rows, update).value)
    ensures ApplyUpdate(rows, update).Ok? ==> Climbed(rows, ApplyUpdate(rows, update).value)
  {
    hide Upsert, NewRow, Reaches, Sorted, Climbed;
    if ApplyUpdate(rows, update).Ok? {
      var at := RowAt(rows, update.key).value;
      UpdatedRow(rows, at, update);
      NewRowClimbs(rows[at], update);
      var row := NewRow(rows[at], update).value;
      RewriteKeepsTable(rows, at, row);
      assert ApplyUpdate(rows, update).value == rows[at := row];
    }
  }

  /** Updates of different keys commute, and neither decides whether the other is accepted. */
  lemma UpdatesCommute(rows: seq<Settlement>, x: Settlement, y: Settlement)
    requires Sorted(rows) && x.key != y.key
    ensures ApplyUpdate(rows, x).Ok? ==> (ApplyUpdate(ApplyUpdate(rows, x).value, y).Ok? <==> ApplyUpdate(rows, y).Ok?)
    ensures ApplyUpdate(rows, x).Ok? && ApplyUpdate(rows, y).Ok? ==>
      ApplyUpdate(ApplyUpdate(rows, x).value, y) == ApplyUpdate(ApplyUpdate(rows, y).value, x)
  {
    hide Upsert, NewRow, Reaches, Sorted, Climbed;
    if ApplyUpdate(rows, x).Ok? {
      var i := RowAt(rows, x.key).value;
      UpdateClimbs(rows, x);
      UpdatedRow(rows, i, x);
      NewRowClimbs(rows[i], x);
      var ax := rows[i := NewRow(rows[i], x).value];
      if j: nat :| j < |rows| && rows[j].key == y.key {
        RowAtIs(rows, j);
        UpdatedRow(rows, j, y);
        UpdatedRow(ax, j, y);
        if ApplyUpdate(rows, y).Ok? {
          UpdateClimbs(rows, y);
          var ay := rows[j := NewRow(rows[j], y).value];
          NewRowClimbs(rows[j], y);
          UpdatedRow(ay, i, x);
          assert ax[j := ay[j]] == ay[i := ax[i]];
        }
      } else {
        assert forall row <- ax :: row.key != y.key;
      }
    }
  }
}

/**
 The mainnet private read: a journal that counts every attempt before it is made, one bounded retry,
 bounded pagination, and no more than one run per journal row.
 */
module MainnetRead {
  import opened Wrappers
  import opened Effects

  const MAX_PAGES := 64
  const MAX_PAGE_ITEMS := 256
  const ASSET_OPERATION_PAGE_ITEMS := 50

  datatype Resource = AccountInfo | Accounts | Balance | SpotBalances | Fees | Positions
  datatype Listing = AssetOperations | OpenOrders | OrderHistory | Trades | PositionHistory | Funding

  datatype Effect = CredentialLoader | One(resource: Resource) | PageOf(listing: Listing, page: nat) | PrivateStream | TerminalPersistence {
    predicate IsGet() {
      One? || PageOf?
    }

    /** The effects a run may ever try at the venue. */
    predicate Reachable() {
      One? || PrivateStream? || (PageOf? && 1 <= page <= MAX_PAGES)
    }
  }

  type Counters = map<Effect, Pair>

  /** What the decoder demands of a stored counter map. */
  ghost predicate Decodes(counters: Counters) {
    forall effect <- counters.Keys :: counters[effect].attempts <= 2 && counters[effect].completions <= counters[effect].attempts
  }

  /** A first attempt of something never tried, or the one retry of something tried once and not completed. */
  predicate MayAttempt(counters: Counters, effect: Effect, retry: bool) {
    var pair := Of(counters, effect);
    if retry then pair.attempts == 1 && pair.completions == 0 else pair.attempts == 0
  }

  predicate MayComplete(counters: Counters, effect: Effect) {
    Of(counters, effect).attempts in {1, 2} && Of(counters, effect).completions == 0
  }

  datatype RunState = Running | Finished
  datatype ReadResult = ReadResult(ready: bool, reason: string, counters: Counters)
  datatype RunRow = RunRow(state: RunState, counters: Counters, evidence: Option<ReadResult>)

  /** Counters decode, nothing is completed twice, and nothing was sent that the counters do not show. */
  ghost predicate CountersOk(counters: Counters, sent: seq<Effect>) {
    && Decodes(counters)
    && (forall effect: Effect :: Of(counters, effect).completions <= 1 && Times(sent, effect) <= Of(counters, effect).attempts <= 2)
    && (forall effect <- sent :: effect.Reachable())
  }

  ghost predicate JournalOk(row: Option<RunRow>, sent: seq<Effect>) {
    if row.None? then sent == []
    else
      && CountersOk(row.value.counters, sent)
      && (row.value.state.Running? ==> row.value.evidence.None? && Of(row.value.counters, TerminalPersistence) == Pair(0, 0))
      && (row.value.state.Finished? ==> row.value.evidence.Some? && row.value.evidence.value.counters == row.value.counters)
  }

  lemma AttemptOk(counters: Counters, sent: seq<Effect>, effect: Effect, retry: bool)
    requires CountersOk(counters, sent) && MayAttempt(counters, effect, retry)
    ensures CountersOk(Attempted(counters, effect), sent)
    ensures Times(sent, effect) < Of(Attempted(counters, effect), effect).attempts
  {
    var after := Attempted(counters, effect);
    forall other: Effect
      ensures Of(after, other).completions <= 1 && Times(sent, other) <= Of(after, other).attempts <= 2
      ensures other != effect ==> Of(after, other) == Of(counters, other)
    {
      assert Of(counters, other).completions <= 1 && Times(sent, other) <= Of(counters, other).attempts <= 2;
    }
  }

  lemma CompleteOk(counters: Counters, sent: seq<Effect>, effect: Effect)
    requires CountersOk(counters, sent) && MayComplete(counters, effect)
    ensures CountersOk(Completed(counters, effect), sent) && Of(Completed(counters, effect), effect).completions == 1
  {
    var after := Completed(counters, effect);
    forall other: Effect ensures Of(after, other).completions <= 1 && Times(sent, other) <= Of(after, other).attempts <= 2 {
      assert Of(counters, other).completions <= 1 && Times(sent, other) <= Of(counters, other).attempts <= 2;
    }
  }

  lemma SendOk(counters: Counters, sent: seq<Effect>, effect: Effect)
    requires CountersOk(counters, sent) && Times(sent, effect) < Of(counters, effect).attempts && effect.Reachable()
    ensures CountersOk(counters, sent + [effect])
  {
    forall other: Effect ensures Times(sent + [effect], other) <= Of(counters, other).attempts {
      TimesAppend(sent, effect, other);
      assert Times(sent, other) <= Of(counters, other).attempts;
    }
  }

  /** After a completion neither a first attempt nor a retry is allowed, and two attempts are the most there can be. */
  lemma NoAttemptAfterCompletion(counters: Counters, sent: seq<Effect>, effect: Effect)
    requires CountersOk(counters, sent)
    ensures Of(counters, effect).completions == 1 ==> !MayAttempt(counters, effect, false) && !MayAttempt(counters, effect, true)
    ensures Of(counters, effect).attempts == 2 ==> !MayAttempt(counters, effect, false) && !MayAttempt(counters, effect, true)
  {
    assert effect in counters ==> counters[effect].completions <= counters[effect].attempts;
  }

  // ----- The bound -----

  function Listings(): set<Listing>
    ensures |Listings()| == 6
  {
    {AssetOperations, OpenOrders, OrderHistory, Trades, PositionHistory, Funding}
  }

  lemma IsListing(listing: Listing)
    ensures listing in Listings()
  {
    match listing
    case AssetOperations => case OpenOrders => case OrderHistory => case Trades => case PositionHistory => case Funding =>
  }

  function Resources(): set<Resource>
    ensures |Resources()| == 6
  {
    {AccountInfo, Accounts, Balance, SpotBalances, Fees, Positions}
  }

  lemma IsResource(resource: Resource)
    ensures resource in Resources()
  {
    match resource
    case AccountInfo => case Accounts => case Balance => case SpotBalances => case Fees => case Positions =>
  }

  lemma AllListed()
    ensures forall listing: Listing :: listing in Listings()
  {
    forall listing: Listing ensures listing in Listings() {
      IsListing(listing);
    }
  }

  ghost function PageSet(pages: nat): (all: set<Effect>)
    ensures |all| <= 6 * pages
    ensures forall listing: Listing, page: nat | 1 <= page <= pages :: PageOf(listing, page) in all
  {
    if pages == 0 then {}
    else
      var last := set listing | listing in Listings() :: PageOf(listing, pages);
      ImageSize(Listings(), pages);
      AllListed();
      PageSet(pages - 1) + last
  }

  lemma {:induction false} ImageSize(listings: set<Listing>, page: nat)
    ensures |(set listing | listing in listings :: PageOf(listing, page))| <= |listings|
  {
    if listings != {} {
      var one :| one in listings;
      ImageSize(listings - {one}, page);
      assert (set listing | listing in listings :: PageOf(listing, page))
          == (set listing | listing in listings - {one} :: PageOf(listing, page)) + {PageOf(one, page)};
    }
  }

  lemma {:induction false} ResourceImage(resources: set<Resource>)
    ensures |(set resource | resource in resources :: One(resource))| <= |resources|
  {
    if resources != {} {
      var one :| one in resources;
      ResourceImage(resources - {one});
      assert (set resource | resource in resources :: One(resource))
          == (set resource | resource in resources - {one} :: One(resource)) + {One(one)};
    }
  }

  ghost function Gets(sent: seq<Effect>): seq<Effect> {
    Without(sent, PrivateStream)
  }

  /** At most 780 GETs and two streams: six resources and six listings of 64 pages, twice each. */
  lemma SendsAreBounded(counters: Counters, sent: seq<Effect>)
    requires CountersOk(counters, sent)
    ensures |Gets(sent)| <= 780 && Times(sent, PrivateStream) <= 2 && |sent| <= 782
    ensures forall effect <- Gets(sent) :: effect.IsGet()
  {
    WithoutCounts(sent, PrivateStream);
    var ones := set resource | resource in Resources() :: One(resource);
    ResourceImage(Resources());
    var all := ones + PageSet(MAX_PAGES);
    assert |all| <= 390;
    var gets := Gets(sent);
    forall effect <- gets ensures effect in all && effect.IsGet() {
      assert effect in sent && effect.Reachable();
      if effect.One? {
        IsResource(effect.resource);
      }
    }
    forall effect: Effect ensures Times(gets, effect) <= 2 {
      assert Times(sent, effect) <= Of(counters, effect).attempts <= 2;
      if effect == PrivateStream {
        NotThere(gets, effect);
      }
    }
    AtMostEach(gets, all, 2);
    assert Times(sent, PrivateStream) <= Of(counters, PrivateStream).attempts <= 2;
  }

  // ----- The journal file and the venue -----

  class RunStore {
    var row: Option<RunRow>

    constructor ()
      ensures row == None
    {
      row := None;
    }

    /** None when this start owns the run; an interrupted run is finished here and now, as blocked. */
    method Claim() returns (f: Fate<Option<ReadResult>>)
      modifies this
      ensures row == old(row)
              || (old(row).None? && row == Some(RunRow(Running, map[], None)))
              || (old(row).Some? && old(row).value.state.Running? && row.Some? && Terminal(old(row).value, row.value))
      ensures f.Done? && f.value.None? ==> old(row).None? && row.Some?
      ensures f.Done? && f.value.Some? ==> row.Some? && row.value.state.Finished? && row.value.evidence == f.value
      ensures f.Done? && f.value.Some? && old(row).Some? && old(row).value.state.Finished? ==> row == old(row)
    {
      if row.None? {
        if * { return Crashed; }
        row := Some(RunRow(Running, map[], None));
        if * { return Crashed; }
        return Done(None);
      }
      if row.value.state.Finished? {
        if row.value.evidence.None? || row.value.evidence.value.counters != row.value.counters {
          return Fate.Raised("DURABLE_EVIDENCE_INVALID");
        }
        return Done(row.value.evidence);
      }
      if row.value.evidence.Some? { return Fate.Raised("DURABLE_STATE_INVALID"); }
      var finished := Terminalize(false, "INTERRUPTED_RUNNING");
      if !finished.Done? { return finished.PropagateFailure(); }
      return Done(Some(finished.value));
    }

    method Attempt(effect: Effect, retry: bool) returns (f: Fate<()>)
      modifies this
      ensures row == old(row)
              || (Allowed(old(row), effect, retry) && row == Some(old(row).value.(counters := Attempted(old(row).value.counters, effect))))
      ensures f.Done? ==> Allowed(old(row), effect, retry) && row == Some(old(row).value.(counters := Attempted(old(row).value.counters, effect)))
    {
      if row.None? || !row.value.state.Running? { return Fate.Raised("DURABLE_STATE_CONFLICT"); }
      if !MayAttempt(row.value.counters, effect, retry) {
        return Fate.Raised(if retry then "DURABLE_RETRY_FORBIDDEN" else "DURABLE_EFFECT_REPLAY");
      }
      if * { return Crashed; }
      row := Some(row.value.(counters := Attempted(row.value.counters, effect)));
      if * { return Crashed; }
      return Done(());
    }

    method Complete(effect: Effect) returns (f: Fate<()>)
      modifies this
      ensures row == old(row) || (Open(old(row), effect) && row == Some(old(row).value.(counters := Completed(old(row).value.counters, effect))))
      ensures f.Done? ==> Open(old(row), effect) && row == Some(old(row).value.(counters := Completed(old(row).value.counters, effect)))
    {
      if row.None? || !row.value.state.Running? { return Fate.Raised("DURABLE_STATE_CONFLICT"); }
      if !MayComplete(row.value.counters, effect) { return Fate.Raised("DURABLE_COMPLETION_INVALID"); }
      if * { return Crashed; }
      row := Some(row.value.(counters := Completed(row.value.counters, effect)));
      if * { return Crashed; }
      return Done(());
    }

    /** One transaction records the result; the file is then synced, which may still fail. */
    method Terminalize(ready: bool, reason: string) returns (f: Fate<ReadResult>)
      modifies this
      ensures row == old(row) || (old(row).Some? && old(row).value.state.Running? && row.Some? && Terminal(old(row).value, row.value))
      ensures f.Done? ==> old(row).Some? && old(row).value.state.Running? && row.Some? && Terminal(old(row).value, row.value)
                          && row.value.evidence == Some(f.value) && f.value.ready == ready && f.value.reason == reason
    {
      if row.None? || !row.value.state.Running? { return Fate.Raised("DURABLE_STATE_CONFLICT"); }
      if Of(row.value.counters, TerminalPersistence).attempts != 0 { return Fate.Raised("DURABLE_TERMINAL_REPLAY"); }
      var counters := row.value.counters[TerminalPersistence := Pair(1, 1)];
      var result := ReadResult(ready, reason, counters);
      if * { return Crashed; }
      row := Some(RunRow(Finished, counters, Some(result)));
      if * { return Crashed; }
      if * { return Fate.Raised("DURABLE_STORE_SYNC_FAILED"); }
      return Done(result);
    }
  }

  predicate Allowed(row: Option<RunRow>, effect: Effect, retry: bool) {
    row.Some? && row.value.state.Running? && MayAttempt(row.value.counters, effect, retry)
  }

  predicate Open(row: Option<RunRow>, effect: Effect) {
    row.Some? && row.value.state.Running? && MayComplete(row.value.counters, effect)
  }

  predicate Terminal(before: RunRow, after: RunRow) {
    && Of(before.counters, TerminalPersistence).attempts == 0
    && after.state.Finished? && after.counters == before.counters[TerminalPersistence := Pair(1, 1)]
    && after.evidence.Some? && after.evidence.value.counters == after.counters
  }

  datatype Pagination = Pagination(count: int, cursor: Option<int>)
  datatype Page = Page(rows: seq<int>, pagination: Option<Pagination>)

  /** What one request comes to once its reply is checked and decoded. */
  datatype Fetch = Served(page: Page, at: int) | Interrupted | Refused(reason: string) | Cancelled

  /** A request that was answered with a page, and the cursor it carried. */
  datatype Exchange = Exchange(effect: Effect, cursor: Option<int>, page: Page)

  class Venue {
    ghost var sent: seq<Effect>
    ghost var exchanges: seq<Exchange>

    /** Anything may come back, or nothing, or the process may die on either side of the request. */
    method Request(effect: Effect, cursor: Option<int>) returns (f: Fate<Fetch>)
      modifies this
      ensures sent == old(sent) || sent == old(sent) + [effect]
      ensures exchanges == old(exchanges) + if f.Done? && f.value.Served? then [Exchange(effect, cursor, f.value.page)] else []
      ensures !f.Raised?
    {
      if * { return Crashed; }
      sent := sent + [effect];
      if * { return Crashed; }
      var fetch: Fetch := *;
      if fetch.Served? {
        exchanges := exchanges + [Exchange(effect, cursor, fetch.page)];
      }
      return Done(fetch);
    }
  }

  datatype Observed = Observed(page: Page, at: nat)

  /** A run under way: the row is open and shows everything sent. */
  ghost predicate Underway(row: Option<RunRow>, sent: seq<Effect>) {
    JournalOk(row, sent) && row.Some? && row.value.state.Running?
  }

  lemma AttemptUnderway(row: RunRow, sent: seq<Effect>, effect: Effect, retry: bool)
    requires Underway(Some(row), sent) && Allowed(Some(row), effect, retry) && !effect.TerminalPersistence?
    ensures var after := row.(counters := Attempted(row.counters, effect));
      Underway(Some(after), sent) && (effect.Reachable() ==> Underway(Some(after), sent + [effect]))
  {
    AttemptOk(row.counters, sent, effect, retry);
    if effect.Reachable() {
      SendOk(Attempted(row.counters, effect), sent, effect);
    }
  }

  lemma CompleteUnderway(row: RunRow, sent: seq<Effect>, effect: Effect)
    requires Underway(Some(row), sent) && Open(Some(row), effect) && !effect.TerminalPersistence?
    ensures Underway(Some(row.(counters := Completed(row.counters, effect))), sent)
    ensures Of(Completed(row.counters, effect), effect).completions == 1
  {
    CompleteOk(row.counters, sent, effect);
  }

  lemma TerminalOk(before: RunRow, after: RunRow, sent: seq<Effect>)
    requires Underway(Some(before), sent) && Terminal(before, after)
    ensures JournalOk(Some(after), sent)
  {
    forall other: Effect ensures Of(after.counters, other).completions <= 1 && Times(sent, other) <= Of(after.counters, other).attempts <= 2 {
      assert Of(before.counters, other).completions <= 1 && Times(sent, other) <= Of(before.counters, other).attempts <= 2;
    }
  }

  /** One request and, after a transport interruption only, one fresh retry, each counted before it is made. */
  method GetDecoded(store: RunStore, venue: Venue, effect: Effect, cursor: Option<int>) returns (f: Fate<Observed>)
    requires Underway(store.row, venue.sent) && effect.Reachable()
    modifies store, venue
    ensures Underway(store.row, venue.sent)
    ensures f.Done? ==> Of(store.row.value.counters, effect).completions == 1
    ensures f.Done? ==> venue.exchanges == old(venue.exchanges) + [Exchange(effect, cursor, f.value.page)]
  {
    hide Underway, Effect.Reachable, Attempted, Completed;
    for attempt := 1 to 3
      invariant Underway(store.row, venue.sent) && venue.exchanges == old(venue.exchanges)
    {
      ghost var before := store.row;
      var counted := store.Attempt(effect, attempt == 2);
      if store.row != before || counted.Done? {
        AttemptUnderway(before.value, venue.sent, effect, attempt == 2) by { NotTerminal(effect); }
      }
      if !counted.Done? { return counted.PropagateFailure(); }
      var fetched := venue.Request(effect, cursor);
      if !fetched.Done? { return fetched.PropagateFailure(); }
      match fetched.value {
        case Cancelled => return Fate.Raised("CANCELLED");
        case Refused(reason) => return Fate.Raised(reason);
        case Interrupted =>
          if attempt == 2 { return Fate.Raised("TRANSPORT_RETRY_EXHAUSTED"); }
        case Served(page, at) =>
          if at < 0 { return Fate.Raised("CLOCK_INVALID"); }
          before := store.row;
          var completed := store.Complete(effect);
          if store.row != before || completed.Done? {
            CompleteUnderway(before.value, venue.sent, effect) by { NotTerminal(effect); }
          }
          if !completed.Done? { return completed.PropagateFailure(); }
          return Done(Observed(page, at));
      }
    }
    return Fate.Raised("TRANSPORT_RETRY_EXHAUSTED");
  }

  lemma NotTerminal(effect: Effect)
    requires effect.Reachable()
    ensures !effect.TerminalPersistence?
  {
  }

  // ----- Pagination -----

  datatype PageEvidence = PageEvidence(pages: nat, cursors: seq<int>, times: seq<int>)

  predicate NonDecreasing(times: seq<int>) {
    forall i | 0 < i < |times| :: times[i - 1] <= times[i]
  }

  predicate AllDifferent(cursors: seq<int>) {
    forall i, j | 0 <= i < j < |cursors| :: cursors[i] != cursors[j]
  }

  /** A complete listing: each page but the last is full, the last is not, and the cursor between two pages is never used twice. */
  predicate Complete(rows: seq<int>, evidence: PageEvidence, limit: nat) {
    && 1 <= evidence.pages <= MAX_PAGES && |evidence.cursors| == evidence.pages - 1 && |evidence.times| == evidence.pages
    && AllDifferent(evidence.cursors) && NonDecreasing(evidence.times)
    && (evidence.pages - 1) * limit <= |rows| < evidence.pages * limit
  }

  /** All rows of the pages, in order. */
  function RowsOf(exchanges: seq<Exchange>): seq<int> {
    if exchanges == [] then [] else RowsOf(exchanges[..|exchanges| - 1]) + exchanges[|exchanges| - 1].page.rows
  }

  /** Pages of one listing from the first on, each asked for with the cursor the one before it gave. */
  ghost predicate Chained(exchanges: seq<Exchange>, listing: Listing) {
    forall k | 0 <= k < |exchanges| :: exchanges[k].effect == PageOf(listing, k + 1) && Follows(exchanges[..k], exchanges[k].cursor)
  }

  /** The cursor to ask with after these pages. */
  predicate Follows(before: seq<Exchange>, cursor: Option<int>) {
    if before == [] then cursor == None
    else
      var last := before[|before| - 1].page;
      last.pagination.Some? && cursor.Some? && cursor == last.pagination.value.cursor
  }

  lemma OneMorePage(exchanges: seq<Exchange>, next: Exchange, listing: Listing)
    requires Chained(exchanges, listing) && next.effect == PageOf(listing, |exchanges| + 1)
    requires Follows(exchanges, next.cursor)
    ensures Chained(exchanges + [next], listing) && RowsOf(exchanges + [next]) == RowsOf(exchanges) + next.page.rows
  {
    hide Follows;
    var all := exchanges + [next];
    forall k | 0 <= k < |all| ensures all[k].effect == PageOf(listing, k + 1) && Follows(all[..k], all[k].cursor) {
      assert all[..k] == exchanges[..k];
      assert exchanges[..|exchanges|] == exchanges;
    }
    assert all[..|exchanges|] == exchanges;
  }

  method ReadPages(store: RunStore, venue: Venue, listing: Listing, limit: nat) returns (f: Fate<(seq<int>, PageEvidence)>)
    requires Underway(store.row, venue.sent) && limit > 0
    modifies store, venue
    ensures Underway(store.row, venue.sent)
    ensures f.Done? ==> Complete(f.value.0, f.value.1, limit)
    ensures f.Done? ==> |venue.exchanges| == |old(venue.exchanges)| + f.value.1.pages && old(venue.exchanges) <= venue.exchanges
    ensures f.Done? ==> Chained(venue.exchanges[|old(venue.exchanges)|..], listing)
    ensures f.Done? ==> f.value.0 == RowsOf(venue.exchanges[|old(venue.exchanges)|..])
  {
    hide Underway, Chained, RowsOf, Follows, Effect.Reachable;
    var rows: seq<int>, cursors: seq<int>, times: seq<int> := [], [], [];
    var page, cursor := 1, None;
    ghost var read: seq<Exchange> := [];
    NoPages(listing);
    PagesReachable(listing);
    while true
      invariant Underway(store.row, venue.sent) && 1 <= page <= MAX_PAGES + 1
      invariant venue.exchanges == old(venue.exchanges) + read && |read| == page - 1 && Chained(read, listing) && rows == RowsOf(read)
      invariant Follows(read, cursor)
      invariant |cursors| == page - 1 && |times| == page - 1 && AllDifferent(cursors)
      invariant |rows| == (page - 1) * limit
      decreases MAX_PAGES + 1 - page
    {
      if page > MAX_PAGES { return Fate.Raised("PAGINATION_LIMIT"); }
      var got := GetDecoded(store, venue, PageOf(listing, page), cursor);
      if !got.Done? { return got.PropagateFailure(); }
      var raw, pagination := got.value.page.rows, got.value.page.pagination;
      OneMorePage(read, Exchange(PageOf(listing, page), cursor, got.value.page), listing);
      NextFollows(read, Exchange(PageOf(listing, page), cursor, got.value.page));
      read := read + [Exchange(PageOf(listing, page), cursor, got.value.page)];
      times := times + [got.value.at];
      if |raw| > limit { return Fate.Raised("PAGE_TOO_LARGE"); }
      if raw == [] {
        if pagination.Some? && (pagination.value.count != 0 || pagination.value.cursor.Some?) {
          return Fate.Raised("EMPTY_PAGE_PAGINATION");
        }
        break;
      }
      rows := rows + raw;
      if pagination.None? { return Fate.Raised("PAGINATION_MISSING"); }
      if pagination.value.count != |raw| { return Fate.Raised("PAGINATION_COUNT_DISAGREES"); }
      if |raw| < limit { break; }
      if pagination.value.cursor.None? { return Fate.Raised("PAGINATION_CURSOR_MISSING"); }
      var next := pagination.value.cursor.value;
      if next <= 0 { return Fate.Raised("PAGINATION_CURSOR"); }
      if next in cursors { return Fate.Raised("PAGINATION_CURSOR_REPEATED"); }
      cursors, cursor := cursors + [next], Some(next);
      page := page + 1;
    }
    assert venue.exchanges[|old(venue.exchanges)|..] == read;
    if !NonDecreasing(times) { return Fate.Raised("OBSERVATION_TIME_REGRESSION"); }
    return Done((rows, PageEvidence(page, cursors, times)));
  }

  lemma NoPages(listing: Listing)
    ensures Chained([], listing) && RowsOf([]) == [] && Follows([], None)
  {
  }

  lemma PagesReachable(listing: Listing)
    ensures forall page: nat | 1 <= page <= MAX_PAGES :: PageOf(listing, page).Reachable()
  {
  }

  lemma NextFollows(before: seq<Exchange>, last: Exchange)
    ensures last.page.pagination.Some? && last.page.pagination.value.cursor.Some? ==> Follows(before + [last], last.page.pagination.value.cursor)
  {
  }

  /** No page after this one: no pagination, no next cursor, or not full. */
  predicate Exhausted(page: Page) {
    page.pagination.None? || page.pagination.value.cursor.None? || |page.rows| < MAX_PAGE_ITEMS
  }

  /** Open orders end at a page without pagination, without a next cursor, or not full. */
  method ReadOpenOrders(store: RunStore, venue: Venue) returns (f: Fate<(seq<int>, PageEvidence)>)
    requires Underway(store.row, venue.sent)
    modifies store, venue
    ensures Underway(store.row, venue.sent)
    ensures f.Done? ==> 1 <= f.value.1.pages <= MAX_PAGES && |f.value.0| <= f.value.1.pages * MAX_PAGE_ITEMS
    ensures f.Done? ==> |f.value.1.cursors| == f.value.1.pages - 1 && AllDifferent(f.value.1.cursors) && NonDecreasing(f.value.1.times)
    ensures f.Done? ==> |venue.exchanges| == |old(venue.exchanges)| + f.value.1.pages && old(venue.exchanges) <= venue.exchanges
    ensures f.Done? ==> Chained(venue.exchanges[|old(venue.exchanges)|..], OpenOrders)
    ensures f.Done? ==> f.value.0 == RowsOf(venue.exchanges[|old(venue.exchanges)|..]) && Exhausted(venue.exchanges[|venue.exchanges| - 1].page)
  {
    hide Underway, Chained, RowsOf, Follows, Effect.Reachable;
    var rows: seq<int>, cursors: seq<int>, times: seq<int> := [], [], [];
    var pages, cursor := 0, None;
    ghost var read: seq<Exchange> := [];
    NoPages(OpenOrders);
    PagesReachable(OpenOrders);
    while true
      invariant Underway(store.row, venue.sent) && 0 <= pages <= MAX_PAGES
      invariant venue.exchanges == old(venue.exchanges) + read && |read| == pages && Chained(read, OpenOrders) && rows == RowsOf(read)
      invariant Follows(read, cursor)
      invariant |cursors| == pages && AllDifferent(cursors) && |rows| <= pages * MAX_PAGE_ITEMS
      decreases MAX_PAGES - pages
    {
      if pages >= MAX_PAGES { return Fate.Raised("PAGINATION_LIMIT_OPEN_ORDERS"); }
      var got := GetDecoded(store, venue, PageOf(OpenOrders, pages + 1), cursor);
      if !got.Done? { return got.PropagateFailure(); }
      var raw, pagination := got.value.page.rows, got.value.page.pagination;
      OneMorePage(read, Exchange(PageOf(OpenOrders, pages + 1), cursor, got.value.page), OpenOrders);
      NextFollows(read, Exchange(PageOf(OpenOrders, pages + 1), cursor, got.value.page));
      read := read + [Exchange(PageOf(OpenOrders, pages + 1), cursor, got.value.page)];
      pages := pages + 1;
      times := times + [got.value.at];
      if |raw| > MAX_PAGE_ITEMS { return Fate.Raised("PAGE_TOO_LARGE_OPEN_ORDERS"); }
      rows := rows + raw;
      if pagination.None? { break; }
      if pagination.value.count != |raw| { return Fate.Raised("PAGINATION_COUNT_DISAGREES_OPEN_ORDERS"); }
      if pagination.value.cursor.None? || |raw| < MAX_PAGE_ITEMS { break; }
      var next := pagination.value.cursor.value;
      if next <= 0 { return Fate.Raised("PAGINATION_CURSOR"); }
      if next in cursors { return Fate.Raised("PAGINATION_CURSOR_REPEATED_OPEN_ORDERS"); }
      cursors, cursor := cursors + [next], Some(next);
    }
    assert venue.exchanges[|old(venue.exchanges)|..] == read;
    if !NonDecreasing(times) { return Fate.Raised("OBSERVATION_TIME_REGRESSION_OPEN_ORDERS"); }
    return Done((rows, PageEvidence(pages, cursors, times)));
  }

  // ----- The gate -----

  method LoadCredential(store: RunStore, venue: Venue) returns (f: Fate<()>)
    requires Underway(store.row, venue.sent)
    modifies store
    ensures Underway(store.row, venue.sent)
  {
    hide Underway, Attempted, Completed;
    ghost var before := store.row;
    var counted := store.Attempt(CredentialLoader, false);
    if store.row != before || counted.Done? {
      AttemptUnderway(before.value, venue.sent, CredentialLoader, false);
    }
    if !counted.Done? { return counted.PropagateFailure(); }
    if * { return Crashed; }
    if * { return Fate.Raised("CREDENTIAL_INVALID"); }
    before := store.row;
    f := store.Complete(CredentialLoader);
    if store.row != before || f.Done? {
      CompleteUnderway(before.value, venue.sent, CredentialLoader);
    }
  }

  /** Every read of the gate in its order; the checks between them may refuse. */
  method ReadEverything(store: RunStore, venue: Venue) returns (f: Fate<()>)
    requires Underway(store.row, venue.sent)
    modifies store, venue
    ensures Underway(store.row, venue.sent)
  {
    hide Underway;
    f := LoadCredential(store, venue);
    if !f.Done? { return; }
    var first := [AccountInfo, Accounts, Balance, SpotBalances];
    for k := 0 to |first|
      invariant Underway(store.row, venue.sent)
    {
      var got := GetDecoded(store, venue, One(first[k]), None);
      if !got.Done? { return got.PropagateFailure(); }
      if * { return Fate.Raised("IDENTITY_OR_STATE_REFUSED"); }
    }
    var operations := ReadPages(store, venue, AssetOperations, ASSET_OPERATION_PAGE_ITEMS);
    if !operations.Done? { return operations.PropagateFailure(); }
    var fees := GetDecoded(store, venue, One(Fees), None);
    if !fees.Done? { return fees.PropagateFailure(); }
    var orders := ReadOpenOrders(store, venue);
    if !orders.Done? { return orders.PropagateFailure(); }
    var history := ReadPages(store, venue, OrderHistory, MAX_PAGE_ITEMS);
    if !history.Done? { return history.PropagateFailure(); }
    var trades := ReadPages(store, venue, Trades, MAX_PAGE_ITEMS);
    if !trades.Done? { return trades.PropagateFailure(); }
    var positions := GetDecoded(store, venue, One(Positions), None);
    if !positions.Done? { return positions.PropagateFailure(); }
    var closed := ReadPages(store, venue, PositionHistory, MAX_PAGE_ITEMS);
    if !closed.Done? { return closed.PropagateFailure(); }
    var funding := ReadPages(store, venue, Funding, MAX_PAGE_ITEMS);
    if !funding.Done? { return funding.PropagateFailure(); }
    var stream := GetDecoded(store, venue, PrivateStream, None);
    if !stream.Done? { return stream.PropagateFailure(); }
    if * { return Fate.Raised("UNRELATED_STATE_OR_NOT_FLAT"); }
    return Done(());
  }

  /** One start. A start that finds a row sends nothing. */
  method RunGate(store: RunStore, venue: Venue) returns (f: Fate<ReadResult>)
    requires JournalOk(store.row, venue.sent)
    modifies store, venue
    ensures JournalOk(store.row, venue.sent)
    ensures old(store.row).Some? ==> venue.sent == old(venue.sent) && store.row.Some?
    ensures old(store.row).Some? && old(store.row).value.state.Finished? ==>
      store.row == old(store.row) && (f.Done? ==> Some(f.value) == old(store.row).value.evidence)
    ensures f.Done? ==> store.row.Some? && store.row.value.state.Finished? && store.row.value.evidence == Some(f.value)
  {
    hide CountersOk;
    var claimed := store.Claim();
    if old(store.row).Some? && store.row != old(store.row) {
      TerminalOk(old(store.row).value, store.row.value, venue.sent);
    }
    NothingYet();
    if !claimed.Done? { return claimed.PropagateFailure(); }
    if claimed.value.Some? { return Done(claimed.value.value); }
    var read := ReadEverything(store, venue);
    if read.Crashed? { return Crashed; }
    var ready, reason := read.Done?, if read.Raised? then read.code else "MAINNET_PRIVATE_READ_PROVED";
    var closes: bool := *;
    if !closes && ready {
      ready, reason := false, "CREDENTIAL_CLOSE_FAILED";
    }
    ghost var before := store.row;
    f := store.Terminalize(ready, reason);
    if store.row != before {
      TerminalOk(before.value, store.row.value, venue.sent);
    }
  }

  lemma NothingYet()
    ensures CountersOk(map[], [])
  {
  }

  /** Any number of starts on one journal row, whatever the venue answers and wherever a start dies. */
  method ProcessStarts(starts: nat, store: RunStore, venue: Venue)
    requires store.row == None && venue.sent == []
    modifies store, venue
    ensures |Gets(venue.sent)| <= 780 && Times(venue.sent, PrivateStream) <= 2
    ensures store.row.Some? ==> CountersOk(store.row.value.counters, venue.sent)
  {
    hide CountersOk;
    for start := 0 to starts
      invariant JournalOk(store.row, venue.sent)
    {
      var _ := RunGate(store, venue);
    }
    if store.row.Some? {
      SendsAreBounded(store.row.value.counters, venue.sent);
    }
  }
}

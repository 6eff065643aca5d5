/**
 * Keyset pagination of a device's flows (src/service.rs with list_flow_page of src/storage.rs): each page as a
 * stretch of the device's rows, newest first.
 */
module FlowPaging {
  import opened Domain
  import opened Sequences

  const DEFAULT_FLOW_PAGE_LIMIT: nat := 50
  const MAX_FLOW_PAGE_LIMIT: nat := 500
  const FLOW_CURSOR_VERSION: nat := 1
  const HOUR_MS := 3_600_000

  type Hours = n: nat | n < 0x1_0000_0000

  datatype Window = Hours1 | Hours6 | Hours24 {
    function Duration(): int {
      match this
      case Hours1 => HOUR_MS
      case Hours6 => 6 * HOUR_MS
      case Hours24 => 24 * HOUR_MS
    }
  }

  // ----- the order of rows -----

  datatype RowKey = RowKey(lastSeen: Timestamp, flowId: FlowId)

  function KeyOf(f: Flow): RowKey { RowKey(f.lastSeen, f.flowId) }

  predicate IsNewer(a: RowKey, b: RowKey) {
    a.lastSeen > b.lastSeen || (a.lastSeen == b.lastSeen && a.flowId > b.flowId)
  }

  predicate NewerFlow(a: Flow, b: Flow) { IsNewer(KeyOf(a), KeyOf(b)) }

  /** ORDER BY last_seen DESC, flow_id DESC */
  ghost predicate Descending(rows: seq<Flow>) { Pairwise(NewerFlow, rows) }

  /** `rows` is the flow table in that order. */
  ghost predicate Arranges(rows: seq<Flow>, table: map<FlowId, Flow>) {
    && Descending(rows)
    && (forall f :: f in rows <==> f.flowId in table && table[f.flowId] == f)
  }

  // ----- requests -----

  datatype PageDirection = Older | Newer

  /** The content of a cursor. The device key is a hash of the MAC, taken to be injective. */
  datatype Payload = Payload(
    version: nat, device: Mac, window: Window, since: Timestamp, limit: nat,
    direction: PageDirection, lastSeen: Timestamp, flowId: FlowId)

  datatype QueryError = InvalidWindow | InvalidLimit | InvalidCursor | CursorDeviceMismatch

  /** `window` is Some(None) for a text that names none; `cursor` is Some(None) for a text that does not decode. */
  datatype Request = Request(window: Option<Option<Window>>, limit: Option<nat>, cursor: Option<Option<Payload>>)

  function Following(c: Payload): Request { Request(None, None, Some(Some(c))) }

  /** What is fetched once a request is admitted; a continuation has an anchor. */
  datatype Plan = Plan(window: Window, since: Timestamp, limit: nat, direction: PageDirection, anchor: Option<RowKey>)

  datatype Admission = Admitted(plan: Plan) | Refused(error: QueryError)

  predicate ValidLimit(limit: nat) { 1 <= limit <= MAX_FLOW_PAGE_LIMIT }

  function Max(a: Timestamp, b: Timestamp): Timestamp { if a >= b then a else b }

  /** The start of the window at `now`, no earlier than what retention leaves. */
  function Cutoff(window: Window, hours: Hours, now: Timestamp): Timestamp {
    Max(Saturate(now - window.Duration()), Saturate(now - hours * HOUR_MS))
  }

  function AdmitCursor(mac: Mac, hours: Hours, now: Timestamp, c: Payload): Admission {
    if c.device != mac then Refused(CursorDeviceMismatch)
    else if c.version != FLOW_CURSOR_VERSION then Refused(InvalidCursor)
    else if !ValidLimit(c.limit) then Refused(InvalidLimit)
    else if c.flowId == EMPTY || c.since > now || c.lastSeen > now || c.lastSeen < c.since then Refused(InvalidCursor)
    else Admitted(Plan(c.window, Max(c.since, Cutoff(c.window, hours, now)), c.limit, c.direction,
        Some(RowKey(c.lastSeen, c.flowId))))
  }

  function Admit(mac: Mac, hours: Hours, now: Timestamp, r: Request): Admission {
    match r.cursor
    case Some(text) =>
      if r.window.Some? || r.limit.Some? || text.None? then Refused(InvalidCursor)
      else AdmitCursor(mac, hours, now, text.value)
    case None =>
      var window := if r.window.Some? then r.window.value else Some(Hours24);
      var limit := if r.limit.Some? then r.limit.value else DEFAULT_FLOW_PAGE_LIMIT;
      if window.None? then Refused(InvalidWindow)
      else if !ValidLimit(limit) then Refused(InvalidLimit)
      else Admitted(Plan(window.value, Cutoff(window.value, hours, now), limit, Older, None))
  }

  // ----- the query -----

  predicate InWindow(f: Flow, mac: Mac, since: Timestamp) { f.Mac() == mac && f.lastSeen >= since }

  predicate Beyond(f: Flow, anchor: RowKey, direction: PageDirection) {
    if direction == Older then IsNewer(anchor, KeyOf(f)) else IsNewer(KeyOf(f), anchor)
  }

  function WindowRows(table: seq<Flow>, mac: Mac, since: Timestamp): seq<Flow> {
    Filter((f: Flow) => InWindow(f, mac, since), table)
  }

  function RowsBeyond(rows: seq<Flow>, anchor: RowKey, direction: PageDirection): seq<Flow> {
    Filter((f: Flow) => Beyond(f, anchor, direction), rows)
  }

  /** The three statements of list_flow_page over the table in descending order. */
  function ListFlowPage(table: seq<Flow>, mac: Mac, since: Timestamp, anchor: Option<RowKey>, direction: PageDirection,
      limit: nat): seq<Flow> {
    var window := WindowRows(table, mac, since);
    if anchor.None? then Take(window, limit)
    else
      var beyond := RowsBeyond(window, anchor.value, direction);
      Take(if direction == Older then beyond else Reversed(beyond), limit)
  }

  // ----- pages as stretches of the device's rows -----

  function DeviceRows(table: seq<Flow>, mac: Mac): seq<Flow> { Filter((f: Flow) => f.Mac() == mac, table) }

  /** How many rows the window holds: they come first. */
  function Fresh(rows: seq<Flow>, since: Timestamp): nat { |Filter((f: Flow) => f.lastSeen >= since, rows)| }

  /** How many rows are newer than a key, and how many are not older. */
  function Above(rows: seq<Flow>, a: RowKey): nat { |Filter((f: Flow) => IsNewer(KeyOf(f), a), rows)| }

  function NotBelow(rows: seq<Flow>, a: RowKey): nat { |Filter((f: Flow) => !IsNewer(a, KeyOf(f)), rows)| }

  function Min(a: nat, b: nat): nat { if a <= b then a else b }

  /** Rows `from` to `to`, and whether the window holds more beyond them. */
  datatype Stretch = Stretch(from: nat, to: nat, more: bool)

  function StretchOf(rows: seq<Flow>, plan: Plan): Stretch {
    var recent := Fresh(rows, plan.since);
    if plan.direction == Older || plan.anchor.None? then
      var from := Min(if plan.anchor.None? then 0 else NotBelow(rows, plan.anchor.value), recent);
      Stretch(from, Min(from + plan.limit, recent), from + plan.limit < recent)
    else
      var to := Min(Above(rows, plan.anchor.value), recent);
      Stretch(if to > plan.limit then to - plan.limit else 0, to, to > plan.limit)
  }

  datatype Page = Page(items: seq<Flow>, next: Option<Payload>, previous: Option<Payload>, window: Window,
      since: Timestamp, limit: nat)

  datatype Response = Shown(page: Page) | Failed(error: QueryError)

  function CursorAt(mac: Mac, plan: Plan, direction: PageDirection, f: Flow): Payload {
    Payload(FLOW_CURSOR_VERSION, mac, plan.window, plan.since, plan.limit, direction, f.lastSeen, f.flowId)
  }

  predicate OffersNext(plan: Plan, more: bool) { more || plan.direction == Newer }

  predicate OffersPrevious(plan: Plan, more: bool) {
    (plan.anchor.Some? && plan.direction == Older) || (plan.direction == Newer && more)
  }

  function PageOf(mac: Mac, plan: Plan, items: seq<Flow>, more: bool): Page {
    Page(items,
         if items != [] && OffersNext(plan, more) then Some(CursorAt(mac, plan, Older, items[|items| - 1])) else None,
         if items != [] && OffersPrevious(plan, more) then Some(CursorAt(mac, plan, Newer, items[0])) else None,
         plan.window, plan.since, plan.limit)
  }

  lemma Cuts(rows: seq<Flow>, since: Timestamp)
    requires Descending(rows)
    ensures var n := Fresh(rows, since);
            n <= |rows| && Filter((f: Flow) => f.lastSeen >= since, rows) == rows[..n]
            && forall i :: 0 <= i < |rows| ==> (rows[i].lastSeen >= since <==> i < n)
  {
    var keep := (f: Flow) => f.lastSeen >= since;
    forall i, j | 0 <= i < j < |rows| && keep(rows[j]) ensures keep(rows[i]) {
      assert NewerFlow(rows[i], rows[j]);
    }
    FilterPrefix(keep, rows);
  }

  lemma AboveCuts(rows: seq<Flow>, a: RowKey)
    requires Descending(rows)
    ensures var n := Above(rows, a);
            n <= |rows| && Filter((f: Flow) => IsNewer(KeyOf(f), a), rows) == rows[..n]
            && forall i :: 0 <= i < |rows| ==> (IsNewer(KeyOf(rows[i]), a) <==> i < n)
  {
    var keep := (f: Flow) => IsNewer(KeyOf(f), a);
    forall i, j | 0 <= i < j < |rows| && keep(rows[j]) ensures keep(rows[i]) {
      assert NewerFlow(rows[i], rows[j]);
    }
    FilterPrefix(keep, rows);
  }

  lemma NotBelowCuts(rows: seq<Flow>, a: RowKey)
    requires Descending(rows)
    ensures var n := NotBelow(rows, a);
            n <= |rows| && forall i :: 0 <= i < |rows| ==> (IsNewer(a, KeyOf(rows[i])) <==> i >= n)
  {
    var keep := (f: Flow) => !IsNewer(a, KeyOf(f));
    forall i, j | 0 <= i < j < |rows| && keep(rows[j]) ensures keep(rows[i]) {
      assert NewerFlow(rows[i], rows[j]);
    }
    FilterPrefix(keep, rows);
  }

  lemma BelowCuts(rows: seq<Flow>, a: RowKey)
    requires Descending(rows)
    ensures NotBelow(rows, a) <= |rows|
    ensures Filter((f: Flow) => IsNewer(a, KeyOf(f)), rows) == rows[NotBelow(rows, a)..]
  {
    var keep := (f: Flow) => IsNewer(a, KeyOf(f));
    forall i, j | 0 <= i < j < |rows| && keep(rows[i]) ensures keep(rows[j]) {
      assert NewerFlow(rows[i], rows[j]);
    }
    FilterSuffix(keep, rows);
    NotBelowCuts(rows, a);
    SamePrefix((f: Flow) => !IsNewer(a, KeyOf(f)), rows, |rows| - |Filter(keep, rows)|, NotBelow(rows, a));
  }

  /** A row is where its key says. */
  lemma RowAtItsKey(rows: seq<Flow>, i: nat)
    requires Descending(rows) && i < |rows|
    ensures Above(rows, KeyOf(rows[i])) == i && NotBelow(rows, KeyOf(rows[i])) == i + 1
  {
    var a := KeyOf(rows[i]);
    AboveCuts(rows, a);
    NotBelowCuts(rows, a);
    assert i + 1 < |rows| ==> NewerFlow(rows[i], rows[i + 1]);
    assert i > 0 ==> NewerFlow(rows[i - 1], rows[i]);
  }

  // ----- the query selects a stretch -----

  lemma DeviceRowsDescend(table: seq<Flow>, mac: Mac)
    requires Descending(table)
    ensures Descending(DeviceRows(table, mac))
  {
    FilterPairwise((f: Flow) => f.Mac() == mac, NewerFlow, table);
  }

  lemma WindowIsPrefix(table: seq<Flow>, mac: Mac, since: Timestamp)
    requires Descending(table)
    ensures var rows := DeviceRows(table, mac);
            && Fresh(rows, since) <= |rows|
            && WindowRows(table, mac, since) == rows[..Fresh(rows, since)]
  {
    var mine, both, recent := (f: Flow) => f.Mac() == mac, (f: Flow) => InWindow(f, mac, since),
        (f: Flow) => f.lastSeen >= since;
    var rows := DeviceRows(table, mac);
    FilterTwice(mine, both, table);
    forall f | f in rows ensures both(f) == recent(f) {
      FilterMember(mine, table, f);
    }
    FilterAgrees(both, recent, rows);
    DeviceRowsDescend(table, mac);
    Cuts(rows, since);
  }

  lemma PrefixCuts(rows: seq<Flow>, n: nat, a: RowKey)
    requires Descending(rows) && n <= |rows|
    ensures Descending(rows[..n])
    ensures NotBelow(rows[..n], a) == Min(NotBelow(rows, a), n) && Above(rows[..n], a) == Min(Above(rows, a), n)
  {
    var window := rows[..n];
    NotBelowCuts(rows, a);
    NotBelowCuts(window, a);
    AboveCuts(rows, a);
    AboveCuts(window, a);
    SamePrefix((f: Flow) => !IsNewer(a, KeyOf(f)), window, NotBelow(window, a), Min(NotBelow(rows, a), n));
    SamePrefix((f: Flow) => IsNewer(KeyOf(f), a), window, Above(window, a), Min(Above(rows, a), n));
  }

  /** The rows beyond the anchor within the window. */
  lemma BeyondIsStretch(rows: seq<Flow>, n: nat, a: RowKey, direction: PageDirection)
    requires Descending(rows) && n <= |rows|
    ensures NotBelow(rows, a) <= |rows| && Above(rows, a) <= |rows|
    ensures RowsBeyond(rows[..n], a, direction)
         == if direction == Older then rows[Min(NotBelow(rows, a), n)..n] else rows[..Min(Above(rows, a), n)]
  {
    var window := rows[..n];
    NotBelowCuts(rows, a);
    AboveCuts(rows, a);
    PrefixCuts(rows, n, a);
    if direction == Older {
      BelowCuts(window, a);
      FilterAgrees((f: Flow) => Beyond(f, a, direction), (f: Flow) => IsNewer(a, KeyOf(f)), window);
    } else {
      AboveCuts(window, a);
      FilterAgrees((f: Flow) => Beyond(f, a, direction), (f: Flow) => IsNewer(KeyOf(f), a), window);
    }
  }

  lemma StretchFits(rows: seq<Flow>, plan: Plan)
    requires Descending(rows)
    ensures var s := StretchOf(rows, plan);
            && s.from <= s.to <= Fresh(rows, plan.since) <= |rows|
            && s.to - s.from <= plan.limit && (s.more ==> s.to - s.from == plan.limit)
  {
    Cuts(rows, plan.since);
  }

  predicate Backward(plan: Plan) { plan.direction == Newer && plan.anchor.Some? }

  lemma InitialQuery(table: seq<Flow>, mac: Mac, plan: Plan)
    requires Descending(table) && plan.anchor.None?
    ensures var rows, s := DeviceRows(table, mac), StretchOf(DeviceRows(table, mac), plan);
            var extra := if s.more then 1 else 0;
            && s.from <= s.to && s.to + extra <= |rows|
            && ListFlowPage(table, mac, plan.since, plan.anchor, plan.direction, plan.limit + 1)
                == rows[s.from..s.to + extra]
  {
    var rows := DeviceRows(table, mac);
    var n := Fresh(rows, plan.since);
    DeviceRowsDescend(table, mac);
    WindowIsPrefix(table, mac, plan.since);
    ForwardTake(rows, 0, n, plan.limit + 1);
  }

  lemma OlderQuery(table: seq<Flow>, mac: Mac, plan: Plan)
    requires Descending(table) && plan.anchor.Some? && plan.direction == Older
    ensures var rows, s := DeviceRows(table, mac), StretchOf(DeviceRows(table, mac), plan);
            var extra := if s.more then 1 else 0;
            && s.from <= s.to && s.to + extra <= |rows|
            && ListFlowPage(table, mac, plan.since, plan.anchor, plan.direction, plan.limit + 1)
                == rows[s.from..s.to + extra]
  {
    var rows := DeviceRows(table, mac);
    var n := Fresh(rows, plan.since);
    DeviceRowsDescend(table, mac);
    WindowIsPrefix(table, mac, plan.since);
    BeyondIsStretch(rows, n, plan.anchor.value, Older);
    ForwardTake(rows, Min(NotBelow(rows, plan.anchor.value), n), n, plan.limit + 1);
  }

  lemma ForwardTake(rows: seq<Flow>, from: nat, to: nat, limit: nat)
    requires from <= to <= |rows|
    ensures Take(rows[from..to], limit) == rows[from..Min(from + limit, to)]
    ensures rows[..to][from..] == rows[from..to] && rows[..to][0..] == rows[..to]
  {}

  lemma BackwardQuery(table: seq<Flow>, mac: Mac, plan: Plan)
    requires Descending(table) && Backward(plan)
    ensures var rows, s := DeviceRows(table, mac), StretchOf(DeviceRows(table, mac), plan);
            var extra := if s.more then 1 else 0;
            && extra <= s.from <= s.to <= |rows|
            && ListFlowPage(table, mac, plan.since, plan.anchor, plan.direction, plan.limit + 1)
                == Reversed(rows[s.from - extra..s.to])
  {
    var rows := DeviceRows(table, mac);
    var n := Fresh(rows, plan.since);
    DeviceRowsDescend(table, mac);
    WindowIsPrefix(table, mac, plan.since);
    BeyondIsStretch(rows, n, plan.anchor.value, plan.direction);
    BackwardTake(rows, Min(Above(rows, plan.anchor.value), n), plan.limit + 1);
  }

  lemma BackwardTake(rows: seq<Flow>, to: nat, limit: nat)
    requires to <= |rows|
    ensures Take(Reversed(rows[..to]), limit) == Reversed(rows[if to > limit then to - limit else 0..to])
  {}

  // ----- the page -----

  function Planned(rows: seq<Flow>, mac: Mac, plan: Plan): Page
    requires Descending(rows)
  {
    StretchFits(rows, plan);
    var s := StretchOf(rows, plan);
    PageOf(mac, plan, rows[s.from..s.to], s.more)
  }

  function Answer(rows: seq<Flow>, mac: Mac, hours: Hours, now: Timestamp, r: Request): Response
    requires Descending(rows)
  {
    var a := Admit(mac, hours, now, r);
    if a.Refused? then Failed(a.error)
    else Shown(Planned(rows, mac, a.plan))
  }

  function Presented(mac: Mac, plan: Plan, found: seq<Flow>): Page {
    var kept := Take(found, plan.limit);
    PageOf(mac, plan, if plan.direction == Newer then Reversed(kept) else kept, |found| > plan.limit)
  }

  /** Drop the extra row and turn a backward page around. */
  method Present(mac: Mac, plan: Plan, found: seq<Flow>) returns (page: Page)
    ensures page == Presented(mac, plan, found)
  {
    var items := found;
    var more := |items| > plan.limit;
    if more {
      items := items[..plan.limit];
    }
    assert items == Take(found, plan.limit);
    if plan.direction == Newer {
      items := Reversed(items);
    }
    page := PageOf(mac, plan, items, more);
  }

  /** flow_page: the answer is the planned stretch of the device's rows, read with one row more than it holds. */
  method FlowPage(table: seq<Flow>, mac: Mac, hours: Hours, now: Timestamp, r: Request) returns (response: Response)
    requires Descending(table)
    ensures Descending(DeviceRows(table, mac)) && response == Answer(DeviceRows(table, mac), mac, hours, now, r)
    ensures response.Shown? ==> forall f :: f in response.page.items ==>
              && f in table && f.endpoints.clientMac == mac && f.lastSeen >= now - hours * 3_600_000
              && f.lastSeen >= now - Milliseconds(response.page.window)
  {
    DeviceRowsDescend(table, mac);
    ShownRowsAreRecent(table, mac, hours, now, r);
    var admission := Admit(mac, hours, now, r);
    if admission.Refused? {
      return Failed(admission.error);
    }
    var plan := admission.plan;
    var found := ListFlowPage(table, mac, plan.since, plan.anchor, plan.direction, plan.limit + 1);
    var page := Present(mac, plan, found);
    FetchedPage(table, mac, plan);
    response := Shown(page);
  }

  function Milliseconds(w: Window): int {
    match w
    case Hours1 => 3_600_000
    case Hours6 => 21_600_000
    case Hours24 => 86_400_000
  }

  /** An admitted plan looks back no further than retention and its window allow. */
  lemma AdmittedIsRecent(mac: Mac, hours: Hours, now: Timestamp, r: Request)
    requires Admit(mac, hours, now, r).Admitted?
    ensures var plan := Admit(mac, hours, now, r).plan;
            plan.since >= now - hours * 3_600_000 && plan.since >= now - Milliseconds(plan.window)
  {}

  lemma StretchIsRecent(table: seq<Flow>, mac: Mac, plan: Plan, f: Flow)
    requires Descending(table) && Descending(DeviceRows(table, mac))
    requires f in Planned(DeviceRows(table, mac), mac, plan).items
    ensures f in table && f.endpoints.clientMac == mac && f.lastSeen >= plan.since
  {
    var rows := DeviceRows(table, mac);
    var s := StretchOf(rows, plan);
    StretchFits(rows, plan);
    var i :| s.from <= i < s.to && rows[i] == f;
    Cuts(rows, plan.since);
    assert i < Fresh(rows, plan.since);
    FilterMember((x: Flow) => x.Mac() == mac, table, f);
  }

  /** A page shows rows of its device only, none older than retention or its window allows, nor than its `since`. */
  lemma ShownRowsAreRecent(table: seq<Flow>, mac: Mac, hours: Hours, now: Timestamp, r: Request)
    requires Descending(table) && Descending(DeviceRows(table, mac))
    ensures var response := Answer(DeviceRows(table, mac), mac, hours, now, r);
            response.Shown? ==> forall f :: f in response.page.items ==>
              && f in table && f.endpoints.clientMac == mac && f.lastSeen >= response.page.since
              && f.lastSeen >= now - hours * 3_600_000 && f.lastSeen >= now - Milliseconds(response.page.window)
  {
    var a := Admit(mac, hours, now, r);
    if a.Admitted? {
      AdmittedIsRecent(mac, hours, now, r);
      forall f | f in Planned(DeviceRows(table, mac), mac, a.plan).items
        ensures f in table && f.endpoints.clientMac == mac && f.lastSeen >= a.plan.since
      {
        StretchIsRecent(table, mac, a.plan, f);
      }
    }
  }

  /** A continuation is answered exactly for the device it was issued for, in its version, bounds and past. */
  lemma CursorsAreChecked(rows: seq<Flow>, mac: Mac, hours: Hours, now: Timestamp, c: Payload)
    requires Descending(rows)
    ensures var response := Answer(rows, mac, hours, now, Following(c));
            && (response.Shown? <==>
                  && c.device == mac && c.version == 1 && 1 <= c.limit <= 500
                  && c.flowId != EMPTY && c.since <= c.lastSeen <= now)
            && (response == Failed(CursorDeviceMismatch) <==> c.device != mac)
            && (response == Failed(InvalidLimit) <==>
                  c.device == mac && c.version == 1 && !(1 <= c.limit <= 500))
  {}

  /** A first page is refused for an unknown window or a limit out of bounds, and defaults to 24 hours and 50 rows. */
  lemma FirstPagesAreChecked(rows: seq<Flow>, mac: Mac, hours: Hours, now: Timestamp, r: Request)
    requires Descending(rows) && r.cursor.None?
    ensures var response := Answer(rows, mac, hours, now, r);
            if r.window == Some(None) then response == Failed(InvalidWindow)
            else if r.limit.Some? && !(1 <= r.limit.value <= 500) then response == Failed(InvalidLimit)
            else
              && response.Shown?
              && response.page.window == (if r.window.Some? then r.window.value.value else Hours24)
              && response.page.limit == (if r.limit.Some? then r.limit.value else 50)
              && |response.page.items| <= response.page.limit
  {
    var a := Admit(mac, hours, now, r);
    if a.Admitted? {
      StretchFits(rows, a.plan);
    }
  }

  /** A cursor that does not decode, or comes with a window or a limit, is refused. */
  lemma MixedRequestsAreRefused(rows: seq<Flow>, mac: Mac, hours: Hours, now: Timestamp, r: Request)
    requires Descending(rows) && r.cursor.Some? && (r.window.Some? || r.limit.Some? || r.cursor.value.None?)
    ensures Answer(rows, mac, hours, now, r) == Failed(InvalidCursor)
  {}

  /** A cursor offered on a page of one device is refused for every other. */
  lemma CursorsStayWithTheirDevice(
      rows: seq<Flow>, mac: Mac, hours: Hours, now: Timestamp, r: Request,
      others: seq<Flow>, other: Mac, otherHours: Hours, later: Timestamp)
    requires Descending(rows) && Descending(others) && other != mac && Answer(rows, mac, hours, now, r).Shown?
    ensures var page := Answer(rows, mac, hours, now, r).page;
            && (page.next.Some? ==>
                  Answer(others, other, otherHours, later, Following(page.next.value)) == Failed(CursorDeviceMismatch))
            && (page.previous.Some? ==>
                  Answer(others, other, otherHours, later, Following(page.previous.value))
                  == Failed(CursorDeviceMismatch))
  {}

  /** The page made from what the query found is the page planned. */
  lemma FetchedPage(table: seq<Flow>, mac: Mac, plan: Plan)
    requires Descending(table) && Descending(DeviceRows(table, mac)) && (plan.direction == Newer ==> plan.anchor.Some?)
    ensures Planned(DeviceRows(table, mac), mac, plan)
         == Presented(mac, plan, ListFlowPage(table, mac, plan.since, plan.anchor, plan.direction, plan.limit + 1))
  {
    PageRows(table, mac, plan);
  }

  /** Dropping the extra row and turning a backward page around leaves the stretch, newest first. */
  ghost predicate FetchesPage(table: seq<Flow>, mac: Mac, plan: Plan) {
    var rows, s := DeviceRows(table, mac), StretchOf(DeviceRows(table, mac), plan);
    var found := ListFlowPage(table, mac, plan.since, plan.anchor, plan.direction, plan.limit + 1);
    var kept := Take(found, plan.limit);
    && s.from <= s.to <= |rows| && s.more == (|found| > plan.limit)
    && rows[s.from..s.to] == if plan.direction == Newer then Reversed(kept) else kept
  }

  lemma PageRows(table: seq<Flow>, mac: Mac, plan: Plan)
    requires Descending(table) && (plan.direction == Newer ==> plan.anchor.Some?)
    ensures FetchesPage(table, mac, plan)
  {
    if Backward(plan) {
      BackwardRows(table, mac, plan);
    } else {
      ForwardRows(table, mac, plan);
    }
  }

  lemma BackwardRows(table: seq<Flow>, mac: Mac, plan: Plan)
    requires Descending(table) && Backward(plan)
    ensures FetchesPage(table, mac, plan)
  {
    var rows := DeviceRows(table, mac);
    DeviceRowsDescend(table, mac);
    StretchFits(rows, plan);
    BackwardQuery(table, mac, plan);
    BackwardTrim(rows, StretchOf(rows, plan), plan.limit);
  }

  lemma ForwardRows(table: seq<Flow>, mac: Mac, plan: Plan)
    requires Descending(table) && plan.direction == Older
    ensures FetchesPage(table, mac, plan)
  {
    var rows := DeviceRows(table, mac);
    DeviceRowsDescend(table, mac);
    StretchFits(rows, plan);
    ForwardFound(table, mac, plan);
    ForwardTrim(rows, StretchOf(rows, plan), plan.limit);
  }

  lemma ForwardFound(table: seq<Flow>, mac: Mac, plan: Plan)
    requires Descending(table) && plan.direction == Older
    ensures var rows, s := DeviceRows(table, mac), StretchOf(DeviceRows(table, mac), plan);
            var extra := if s.more then 1 else 0;
            && s.from <= s.to && s.to + extra <= |rows|
            && ListFlowPage(table, mac, plan.since, plan.anchor, plan.direction, plan.limit + 1)
                == rows[s.from..s.to + extra]
  {
    if plan.anchor.None? {
      InitialQuery(table, mac, plan);
    } else {
      OlderQuery(table, mac, plan);
    }
  }

  ghost predicate Sized(s: Stretch, limit: nat) {
    s.from <= s.to && s.to - s.from <= limit && (s.more ==> s.to - s.from == limit)
  }

  lemma ForwardTrim(rows: seq<Flow>, s: Stretch, limit: nat)
    requires Sized(s, limit) && s.to + (if s.more then 1 else 0) <= |rows|
    ensures var found := rows[s.from..s.to + (if s.more then 1 else 0)];
            s.more == (|found| > limit) && rows[s.from..s.to] == Take(found, limit)
  {}

  lemma BackwardTrim(rows: seq<Flow>, s: Stretch, limit: nat)
    requires Sized(s, limit) && (if s.more then 1 else 0) <= s.from && s.to <= |rows|
    ensures var found := Reversed(rows[s.from - (if s.more then 1 else 0)..s.to]);
            s.more == (|found| > limit) && rows[s.from..s.to] == Reversed(Take(found, limit))
  {}

  // ----- the table in order -----

  lemma InsertDescends(rows: seq<Flow>, f: Flow)
    requires Descending(rows) && (forall g :: g in rows ==> g.flowId != f.flowId)
    ensures var n := Above(rows, KeyOf(f)); n <= |rows| && Descending(rows[..n] + [f] + rows[n..])
  {
    var n := Above(rows, KeyOf(f));
    AboveCuts(rows, KeyOf(f));
    var all := rows[..n] + [f] + rows[n..];
    forall i, j | 0 <= i < j < |all| ensures NewerFlow(all[i], all[j]) {
      if i < n && j == n {
        assert IsNewer(KeyOf(rows[i]), KeyOf(f));
      } else if i == n {
        assert rows[j - 1] in rows && !IsNewer(KeyOf(rows[j - 1]), KeyOf(f));
      } else {
        assert NewerFlow(rows[if i < n then i else i - 1], rows[if j < n then j else j - 1]);
      }
    }
  }

  lemma InsertedMember(rows: seq<Flow>, n: nat, f: Flow, g: Flow)
    requires n <= |rows|
    ensures g in rows[..n] + [f] + rows[n..] <==> g in rows || g == f
  {}

  /** Every table keyed by flow id has an arrangement. */
  lemma {:induction false} ArrangementExists(table: map<FlowId, Flow>) returns (rows: seq<Flow>)
    requires forall id :: id in table ==> table[id].flowId == id
    ensures Arranges(rows, table)
    decreases |table|
  {
    if table == map[] {
      rows := [];
    } else {
      var id :| id in table;
      var rest := ArrangementExists(table - {id});
      var n := Above(rest, KeyOf(table[id]));
      AboveCuts(rest, KeyOf(table[id]));
      InsertDescends(rest, table[id]);
      rows := rest[..n] + [table[id]] + rest[n..];
      forall f ensures f in rows <==> f.flowId in table && table[f.flowId] == f {
        InsertedMember(rest, n, table[id], f);
      }
    }
  }

  /** And only one. */
  lemma {:induction false} DescendingIsUnique(a: seq<Flow>, b: seq<Flow>)
    requires Descending(a) && Descending(b) && (forall f :: f in a <==> f in b)
    ensures a == b
    decreases |a|
  {
    assert |a| > 0 ==> a[0] in a;
    assert |b| > 0 ==> b[0] in b;
    if a != [] {
      SameHead(a, b);
      forall f ensures f in a[1..] <==> f in b[1..] {
        TailMember(a, f);
        TailMember(b, f);
      }
      DescendingTail(a);
      DescendingTail(b);
      DescendingIsUnique(a[1..], b[1..]);
    }
  }

  lemma DescendingTail(a: seq<Flow>)
    requires Descending(a) && a != []
    ensures Descending(a[1..])
  {}

  lemma SameHead(a: seq<Flow>, b: seq<Flow>)
    requires Descending(a) && Descending(b) && (forall f :: f in a <==> f in b) && a != [] && b != []
    ensures a[0] == b[0]
  {
    assert a[0] in b && b[0] in a;
    var i :| 0 <= i < |b| && b[i] == a[0];
    var j :| 0 <= j < |a| && a[j] == b[0];
    assert i > 0 ==> NewerFlow(b[0], b[i]);
    assert j > 0 ==> NewerFlow(a[0], a[j]);
  }

  lemma TailMember(a: seq<Flow>, f: Flow)
    requires Descending(a) && a != []
    ensures f in a[1..] <==> f in a && f != a[0]
  {}
}

/** Following cursors: walks over a device's flows visit every row once, and steps back undo steps forward. */
module PagingWalks {
  import opened Domain
  import opened Sequences
  import opened FlowPaging

  ghost predicate Named(rows: seq<Flow>) { forall f :: f in rows ==> f.flowId != EMPTY }

  ghost predicate NoneLaterThan(rows: seq<Flow>, now: Timestamp) { forall f :: f in rows ==> f.lastSeen <= now }

  ghost predicate Shows(rows: seq<Flow>, mac: Mac, hours: Hours, now: Timestamp, r: Request, p: Page)
    requires Descending(rows)
  {
    Answer(rows, mac, hours, now, r) == Shown(p)
  }

  ghost predicate Follows(rows: seq<Flow>, mac: Mac, hours: Hours, p: Page, now: Timestamp, q: Page)
    requires Descending(rows)
  {
    p.next.Some? && Shows(rows, mac, hours, now, Following(p.next.value), q)
  }

  // ----- a page's own cursors -----

  lemma CutoffIsPast(window: Window, hours: Hours, now: Timestamp, later: Timestamp)
    ensures Cutoff(window, hours, now) <= now
    ensures now <= later ==> Cutoff(window, hours, now) <= Cutoff(window, hours, later)
  {}

  lemma AdmittedPlan(mac: Mac, hours: Hours, now: Timestamp, r: Request)
    requires Admit(mac, hours, now, r).Admitted?
    ensures var plan := Admit(mac, hours, now, r).plan;
            && ValidLimit(plan.limit) && Cutoff(plan.window, hours, now) <= plan.since <= now
            && (plan.direction == Newer ==> plan.anchor.Some?)
  {}

  predicate SelfDescribing(p: Page) {
    p.next.Some? ==> p.next.value.window == p.window && p.next.value.since == p.since && p.next.value.limit == p.limit
  }

  /** A response shows the stretch of the plan its request was admitted with. */
  lemma ShownIsPlanned(rows: seq<Flow>, mac: Mac, hours: Hours, now: Timestamp, r: Request, p: Page)
    requires Descending(rows) && Shows(rows, mac, hours, now, r, p)
    ensures var a := Admit(mac, hours, now, r);
            && a.Admitted? && p == Planned(rows, mac, a.plan) && SelfDescribing(p)
            && p.window == a.plan.window && p.since == a.plan.since && p.limit == a.plan.limit
            && (r.cursor.None? ==>
                  a.plan.since == Cutoff(a.plan.window, hours, now) && a.plan.direction == Older && a.plan.anchor.None?)
  {}

  lemma CursorPlan(mac: Mac, hours: Hours, plan: Plan, direction: PageDirection, f: Flow, now: Timestamp)
    requires ValidLimit(plan.limit)
    ensures var a := Admit(mac, hours, now, Following(CursorAt(mac, plan, direction, f)));
            && (a.Admitted? <==> f.flowId != EMPTY && plan.since <= now && plan.since <= f.lastSeen <= now)
            && (a.Admitted? ==>
                  a.plan == Plan(plan.window, Max(plan.since, Cutoff(plan.window, hours, now)), plan.limit, direction,
                      Some(KeyOf(f))))
  {}

  lemma PlannedItems(rows: seq<Flow>, mac: Mac, plan: Plan)
    requires Descending(rows)
    ensures var p, s := Planned(rows, mac, plan), StretchOf(rows, plan);
            && s.from <= s.to <= Fresh(rows, plan.since) <= |rows| && p.items == rows[s.from..s.to]
            && s.to - s.from <= plan.limit && (s.more ==> s.to - s.from == plan.limit)
            && (forall i :: 0 <= i < s.to ==> rows[i].lastSeen >= plan.since)
  {
    StretchFits(rows, plan);
    Cuts(rows, plan.since);
  }

  /** The rows of a planned page, and the rows its cursors point at. */
  lemma PlannedRows(rows: seq<Flow>, mac: Mac, plan: Plan)
    requires Descending(rows)
    ensures var p, s := Planned(rows, mac, plan), StretchOf(rows, plan);
            && s.from <= s.to <= Fresh(rows, plan.since) <= |rows| && p.items == rows[s.from..s.to]
            && s.to - s.from <= plan.limit && (s.more ==> s.to - s.from == plan.limit)
            && (p.next.Some? <==> s.from < s.to && OffersNext(plan, s.more))
            && (p.next.Some? ==> p.next.value == CursorAt(mac, plan, Older, rows[s.to - 1]))
            && (p.previous.Some? <==> s.from < s.to && OffersPrevious(plan, s.more))
            && (p.previous.Some? ==> p.previous.value == CursorAt(mac, plan, Newer, rows[s.from]))
            && (forall i :: 0 <= i < s.to ==> rows[i].lastSeen >= plan.since)
  {
    PlannedItems(rows, mac, plan);
  }

  /**
   * A cursor that a page offered is refused later only because of a row dated after the clock it is
   * followed at: never for its device, version, limit or window.
   */
  lemma OwnCursorAdmitted(rows: seq<Flow>, mac: Mac, hours: Hours, now: Timestamp, r: Request, p: Page, c: Payload,
      later: Timestamp)
    requires Descending(rows) && Named(rows) && Shows(rows, mac, hours, now, r, p)
    requires (p.next == Some(c) || p.previous == Some(c)) && now <= later
    ensures Admit(mac, hours, later, Following(c)).Admitted? <==> c.lastSeen <= later
    ensures exists f :: f in rows && f.lastSeen == c.lastSeen
  {
    var plan := Admit(mac, hours, now, r).plan;
    AdmittedPlan(mac, hours, now, r);
    ShownIsPlanned(rows, mac, hours, now, r, p);
    PlannedRows(rows, mac, plan);
    var s := StretchOf(rows, plan);
    var f := if p.next == Some(c) then rows[s.to - 1] else rows[s.from];
    var direction := if p.next == Some(c) then Older else Newer;
    assert f in rows;
    CursorPlan(mac, hours, plan, direction, f, later);
  }

  // ----- walks -----

  /** The pages a client sees that starts without a cursor and follows `next`, at the given clocks. */
  ghost predicate IsWalk(rows: seq<Flow>, mac: Mac, hours: Hours, first: Request, pages: seq<Page>,
      clocks: seq<Timestamp>)
    requires Descending(rows)
  {
    && |pages| == |clocks| > 0
    && first.cursor.None?
    && Shows(rows, mac, hours, clocks[0], first, pages[0])
    && Linked(rows, mac, hours, pages, clocks)
  }

  ghost function NextPage(rows: seq<Flow>, mac: Mac, hours: Hours): (Page, Timestamp, Page) -> bool
    requires Descending(rows)
  {
    (p: Page, now: Timestamp, q: Page) => Follows(rows, mac, hours, p, now, q)
  }

  ghost predicate Linked(rows: seq<Flow>, mac: Mac, hours: Hours, pages: seq<Page>, clocks: seq<Timestamp>)
    requires Descending(rows)
  {
    Chained(NextPage(rows, mac, hours), pages, clocks)
  }

  function Visited(pages: seq<Page>): seq<Flow>
    decreases |pages|
  {
    if pages == [] then [] else pages[0].items + Visited(pages[1..])
  }

  /** Where a forward plan starts reading. */
  function Start(rows: seq<Flow>, plan: Plan): nat {
    if plan.anchor.None? then 0 else NotBelow(rows, plan.anchor.value)
  }

  /** The next page starts where a forward page ended. */
  lemma NextStartsAtEnd(rows: seq<Flow>, mac: Mac, hours: Hours, plan: Plan, now: Timestamp, q: Page)
      returns (next: Plan)
    requires Descending(rows) && plan.direction == Older && ValidLimit(plan.limit)
    requires Follows(rows, mac, hours, Planned(rows, mac, plan), now, q)
    ensures next.direction == Older && next.limit == plan.limit && next.window == plan.window
    ensures next.since == Max(plan.since, Cutoff(plan.window, hours, now))
    ensures q == Planned(rows, mac, next)
    ensures Start(rows, next) == Start(rows, plan) + |Planned(rows, mac, plan).items|
    ensures |Planned(rows, mac, plan).items| == plan.limit
  {
    var s := StretchOf(rows, plan);
    PlannedRows(rows, mac, plan);
    RowAtItsKey(rows, s.to - 1);
    CursorPlan(mac, hours, plan, Older, rows[s.to - 1], now);
    var r := Following(Planned(rows, mac, plan).next.value);
    next := Admit(mac, hours, now, r).plan;
    ShownIsPlanned(rows, mac, hours, now, r, q);
  }

  /** `items` is the stretch of `rows` that starts at `start`. */
  ghost predicate IsStretchAt(rows: seq<Flow>, start: nat, items: seq<Flow>) {
    start + |items| <= |rows| && items == rows[start..start + |items|]
  }

  lemma StretchesJoin(rows: seq<Flow>, start: nat, one: seq<Flow>, two: seq<Flow>)
    requires IsStretchAt(rows, start, one) && IsStretchAt(rows, start + |one|, two)
    ensures IsStretchAt(rows, start, one + two)
  {}

  lemma FreshShrinks(rows: seq<Flow>, a: Timestamp, b: Timestamp)
    requires Descending(rows) && a <= b
    ensures Fresh(rows, b) <= Fresh(rows, a) <= |rows|
  {
    Cuts(rows, a);
    Cuts(rows, b);
    var n := Fresh(rows, a);
    assert n < |rows| ==> rows[n].lastSeen < a;
  }

  ghost predicate IsPlanAt(rows: seq<Flow>, plan: Plan, limit: nat, since: Timestamp, start: nat) {
    && plan.direction == Older && plan.limit == limit && ValidLimit(limit)
    && since <= plan.since && Start(rows, plan) == start <= Fresh(rows, since)
  }

  /** The page reads forward from row `start`, in a window that opened no earlier than `since`. */
  ghost predicate ReadsFrom(rows: seq<Flow>, mac: Mac, limit: nat, since: Timestamp, p: Page, start: nat)
    requires Descending(rows)
  {
    exists plan :: IsPlanAt(rows, plan, limit, since, start) && p == Planned(rows, mac, plan)
  }

  /** What a forward page shows; without a cursor it has reached the end of its window. */
  lemma ForwardPage(rows: seq<Flow>, mac: Mac, limit: nat, since: Timestamp, p: Page, start: nat)
    requires Descending(rows) && ReadsFrom(rows, mac, limit, since, p, start)
    ensures IsStretchAt(rows, start, p.items) && start + |p.items| <= Fresh(rows, since)
    ensures p.next.None? ==> start + |p.items| >= Fresh(rows, p.since)
  {
    var plan :| IsPlanAt(rows, plan, limit, since, start) && p == Planned(rows, mac, plan);
    PlannedRows(rows, mac, plan);
    FreshShrinks(rows, since, plan.since);
  }

  /** The page after a forward page starts where that one ended. */
  lemma NextReadsOn(rows: seq<Flow>, mac: Mac, hours: Hours, limit: nat, since: Timestamp, p: Page, start: nat,
      now: Timestamp, q: Page)
    requires Descending(rows) && ReadsFrom(rows, mac, limit, since, p, start) && Follows(rows, mac, hours, p, now, q)
    ensures |p.items| == limit && ReadsFrom(rows, mac, limit, since, q, start + limit)
  {
    var plan :| IsPlanAt(rows, plan, limit, since, start) && p == Planned(rows, mac, plan);
    ForwardPage(rows, mac, limit, since, p, start);
    var next := NextStartsAtEnd(rows, mac, hours, plan, now, q);
    assert IsPlanAt(rows, next, limit, since, start + limit);
  }

  /** A page that is followed shows rows, and the next one reads on where it ended. */
  ghost predicate ReadOn(step: (Page, Timestamp, Page) -> bool, readsAt: (Page, nat) -> bool) {
    forall p, s: nat, t, q :: readsAt(p, s) && step(p, t, q) ==> p.items != [] && readsAt(q, s + |p.items|)
  }

  /** The rows read before the last page of a walk. */
  function Behind(pages: seq<Page>): nat
    requires pages != []
    decreases |pages|
  {
    if |pages| == 1 then 0 else |pages[0].items| + Behind(pages[1..])
  }

  lemma {:induction false} VisitedLength(pages: seq<Page>)
    requires pages != []
    ensures |Visited(pages)| == Behind(pages) + |pages[|pages| - 1].items|
    decreases |pages|
  {
    if |pages| == 1 {
      assert Visited(pages) == pages[0].items;
    } else {
      VisitedLength(pages[1..]);
      assert Visited(pages) == pages[0].items + Visited(pages[1..]);
      assert pages[1..][|pages| - 2] == pages[|pages| - 1];
    }
  }

  lemma {:induction false} ChainReads(
      step: (Page, Timestamp, Page) -> bool, readsAt: (Page, nat) -> bool,
      start: nat, pages: seq<Page>, clocks: seq<Timestamp>)
    requires pages != [] && Chained(step, pages, clocks) && readsAt(pages[0], start) && ReadOn(step, readsAt)
    ensures |pages| - 1 <= Behind(pages) && readsAt(pages[|pages| - 1], start + Behind(pages))
    decreases |pages|
  {
    if |pages| > 1 {
      ChainReads(step, readsAt, start + |pages[0].items|, pages[1..], clocks[1..]);
    }
  }

  /** Pages that read on from one another show one stretch. */
  lemma {:induction false} ChainIsStretch(
      rows: seq<Flow>, step: (Page, Timestamp, Page) -> bool, readsAt: (Page, nat) -> bool,
      start: nat, pages: seq<Page>, clocks: seq<Timestamp>)
    requires pages != [] && Chained(step, pages, clocks) && readsAt(pages[0], start) && ReadOn(step, readsAt)
    requires ShowsStretches(rows, readsAt)
    ensures IsStretchAt(rows, start, Visited(pages))
    decreases |pages|
  {
    if |pages| == 1 {
      assert Visited(pages) == pages[0].items;
    } else {
      var after := start + |pages[0].items|;
      assert step(pages[0], clocks[1], pages[1]) && readsAt(pages[1..][0], after);
      ChainIsStretch(rows, step, readsAt, after, pages[1..], clocks[1..]);
      StretchesJoin(rows, start, pages[0].items, Visited(pages[1..]));
    }
  }

  /** Every page comes from some plan, so its cursors carry its own window, bound and limit. */
  lemma KeepsRequest(rows: seq<Flow>, mac: Mac, hours: Hours, p: Page, now: Timestamp, q: Page)
    requires Descending(rows) && Follows(rows, mac, hours, p, now, q)
    requires SelfDescribing(p)
    ensures SelfDescribing(q) && q.window == p.window && q.limit == p.limit
        && q.since == Max(p.since, Cutoff(p.window, hours, now))
  {}

  ghost predicate Ascending(clocks: seq<Timestamp>) { forall i, j :: 0 <= i < j < |clocks| ==> clocks[i] <= clocks[j] }

  lemma {:induction false} WindowMovesOn(rows: seq<Flow>, mac: Mac, hours: Hours, pages: seq<Page>,
      clocks: seq<Timestamp>)
    requires Descending(rows) && pages != [] && Linked(rows, mac, hours, pages, clocks) && Ascending(clocks)
    requires SelfDescribing(pages[0]) && pages[0].since == Cutoff(pages[0].window, hours, clocks[0])
    ensures var last := pages[|pages| - 1];
            && SelfDescribing(last) && last.window == pages[0].window && last.limit == pages[0].limit
            && last.since == Cutoff(last.window, hours, clocks[|clocks| - 1])
    decreases |pages|
  {
    if |pages| > 1 {
      KeepsRequest(rows, mac, hours, pages[0], clocks[1], pages[1]);
      CutoffIsPast(pages[0].window, hours, clocks[0], clocks[1]);
      var rest, later := pages[1..], clocks[1..];
      assert rest[0] == pages[1] && later[0] == clocks[1] && rest[|rest| - 1] == pages[|pages| - 1];
      assert later[|later| - 1] == clocks[|clocks| - 1] && Linked(rows, mac, hours, rest, later);
      assert Ascending(later) by {
        forall i, j | 0 <= i < j < |later| ensures later[i] <= later[j] {
          assert clocks[i + 1] <= clocks[j + 1];
        }
      }
      WindowMovesOn(rows, mac, hours, rest, later);
    }
  }

  /** The last page of a walk shows the requested window as it stands at its own clock. */
  lemma WindowMoves(rows: seq<Flow>, mac: Mac, hours: Hours, first: Request, pages: seq<Page>, clocks: seq<Timestamp>)
    requires Descending(rows) && IsWalk(rows, mac, hours, first, pages, clocks) && Ascending(clocks)
    ensures var last := pages[|pages| - 1];
            && last.window == pages[0].window && last.limit == pages[0].limit
            && last.since == Cutoff(last.window, hours, clocks[|clocks| - 1])
  {
    ShownIsPlanned(rows, mac, hours, clocks[0], first, pages[0]);
    WindowMovesOn(rows, mac, hours, pages, clocks);
  }

  /**
   * A walk visits a stretch of the device's rows from the newest on: in strictly descending order and so without
   * repeats; at most one page shows nothing new; and, once no cursor is left, every row still in
   * the window of the last page.
   */
  lemma WalkVisitsEverything(rows: seq<Flow>, mac: Mac, hours: Hours, first: Request, pages: seq<Page>,
      clocks: seq<Timestamp>)
    requires Descending(rows) && IsWalk(rows, mac, hours, first, pages, clocks)
    ensures var n, last := |Visited(pages)|, pages[|pages| - 1];
            && n <= |rows| && Visited(pages) == rows[..n] && Descending(Visited(pages))
            && |pages| - 1 <= n
            && (last.next.None? ==> forall f :: f in rows && f.lastSeen >= last.since ==> f in Visited(pages))
  {
    WalkReads(rows, mac, hours, first, pages, clocks);
    var last := pages[|pages| - 1];
    if last.next.None? {
      PrefixHoldsWindow(rows, last.since, |Visited(pages)|);
    }
  }

  ghost function ReadsAt(rows: seq<Flow>, mac: Mac, limit: nat, since: Timestamp): (Page, nat) -> bool
    requires Descending(rows)
  {
    (p: Page, s: nat) => ReadsFrom(rows, mac, limit, since, p, s)
  }

  ghost predicate ShowsStretches(rows: seq<Flow>, readsAt: (Page, nat) -> bool) {
    forall p, s: nat :: readsAt(p, s) ==> IsStretchAt(rows, s, p.items)
  }

  lemma PagesReadOn(rows: seq<Flow>, mac: Mac, hours: Hours, limit: nat, since: Timestamp)
    requires Descending(rows)
    ensures ReadOn(NextPage(rows, mac, hours), ReadsAt(rows, mac, limit, since))
  {
    forall p, s: nat, t, q | ReadsFrom(rows, mac, limit, since, p, s) && Follows(rows, mac, hours, p, t, q)
      ensures p.items != [] && ReadsFrom(rows, mac, limit, since, q, s + |p.items|)
    {
      NextReadsOn(rows, mac, hours, limit, since, p, s, t, q);
    }
  }

  lemma PagesShowStretches(rows: seq<Flow>, mac: Mac, limit: nat, since: Timestamp)
    requires Descending(rows)
    ensures ShowsStretches(rows, ReadsAt(rows, mac, limit, since))
  {
    forall p, s: nat | ReadsFrom(rows, mac, limit, since, p, s) ensures IsStretchAt(rows, s, p.items) {
      ForwardPage(rows, mac, limit, since, p, s);
    }
  }

  lemma LinkedReads(rows: seq<Flow>, mac: Mac, hours: Hours, limit: nat, since: Timestamp, pages: seq<Page>,
      clocks: seq<Timestamp>)
    requires Descending(rows) && pages != [] && Linked(rows, mac, hours, pages, clocks)
        && ReadsFrom(rows, mac, limit, since, pages[0], 0)
    ensures IsStretchAt(rows, 0, Visited(pages)) && |pages| - 1 <= Behind(pages)
    ensures ReadsFrom(rows, mac, limit, since, pages[|pages| - 1], Behind(pages))
  {
    var step, readsAt := NextPage(rows, mac, hours), ReadsAt(rows, mac, limit, since);
    PagesReadOn(rows, mac, hours, limit, since);
    PagesShowStretches(rows, mac, limit, since);
    assert readsAt(pages[0], 0);
    ChainReads(step, readsAt, 0, pages, clocks);
    ChainIsStretch(rows, step, readsAt, 0, pages, clocks);
  }

  lemma WalkReads(rows: seq<Flow>, mac: Mac, hours: Hours, first: Request, pages: seq<Page>, clocks: seq<Timestamp>)
    requires Descending(rows) && IsWalk(rows, mac, hours, first, pages, clocks)
    ensures IsStretchAt(rows, 0, Visited(pages))
    ensures var n, last := |Visited(pages)|, pages[|pages| - 1];
            && |pages| - 1 <= n <= Fresh(rows, pages[0].since)
            && (last.next.None? ==> n >= Fresh(rows, last.since))
  {
    var plan := Admit(mac, hours, clocks[0], first).plan;
    AdmittedPlan(mac, hours, clocks[0], first);
    ShownIsPlanned(rows, mac, hours, clocks[0], first, pages[0]);
    assert IsPlanAt(rows, plan, plan.limit, plan.since, 0);
    LinkedReads(rows, mac, hours, plan.limit, plan.since, pages, clocks);
    VisitedLength(pages);
    ForwardPage(rows, mac, plan.limit, plan.since, pages[|pages| - 1], Behind(pages));
  }

  lemma PrefixHoldsWindow(rows: seq<Flow>, since: Timestamp, n: nat)
    requires Descending(rows) && Fresh(rows, since) <= n <= |rows|
    ensures forall f :: f in rows && f.lastSeen >= since ==> f in rows[..n]
  {
    Cuts(rows, since);
    forall f | f in rows && f.lastSeen >= since ensures f in rows[..n] {
      var i :| 0 <= i < |rows| && rows[i] == f;
      assert rows[..n][i] == f;
    }
  }

  /** The page answers some request at that clock. */
  ghost predicate IsShown(rows: seq<Flow>, mac: Mac, hours: Hours, p: Page, now: Timestamp)
    requires Descending(rows)
  {
    exists r :: Shows(rows, mac, hours, now, r, p)
  }

  lemma LastIsShown(rows: seq<Flow>, mac: Mac, hours: Hours, first: Request, pages: seq<Page>, clocks: seq<Timestamp>)
    requires Descending(rows) && IsWalk(rows, mac, hours, first, pages, clocks)
    ensures IsShown(rows, mac, hours, pages[|pages| - 1], clocks[|clocks| - 1])
  {
    LastOfChain(NextPage(rows, mac, hours), (p: Page, now: Timestamp) => IsShown(rows, mac, hours, p, now), pages,
        clocks);
  }

  lemma PageGoesOn(rows: seq<Flow>, mac: Mac, hours: Hours, p: Page, shown: Timestamp, now: Timestamp) returns (q: Page)
    requires Descending(rows) && Named(rows) && IsShown(rows, mac, hours, p, shown)
    requires shown <= now && NoneLaterThan(rows, now) && p.next.Some?
    ensures Follows(rows, mac, hours, p, now, q)
  {
    var r :| Shows(rows, mac, hours, shown, r, p);
    OwnCursorAdmitted(rows, mac, hours, shown, r, p, p.next.value, now);
    q := Answer(rows, mac, hours, now, Following(p.next.value)).page;
  }

  /** A walk is never cut short: while a cursor is left and no row is dated ahead of the clock, it goes on. */
  lemma WalkGoesOn(rows: seq<Flow>, mac: Mac, hours: Hours, first: Request, pages: seq<Page>, clocks: seq<Timestamp>,
      now: Timestamp) returns (q: Page)
    requires Descending(rows) && Named(rows) && IsWalk(rows, mac, hours, first, pages, clocks)
    requires clocks[|clocks| - 1] <= now && NoneLaterThan(rows, now) && pages[|pages| - 1].next.Some?
    ensures IsWalk(rows, mac, hours, first, pages + [q], clocks + [now])
  {
    LastIsShown(rows, mac, hours, first, pages, clocks);
    q := PageGoesOn(rows, mac, hours, pages[|pages| - 1], clocks[|clocks| - 1], now);
    ChainExtends(NextPage(rows, mac, hours), pages, clocks, q, now);
  }

  /** A walk at a standing clock, every page of it. */
  ghost predicate IsWalkAt(rows: seq<Flow>, mac: Mac, hours: Hours, first: Request, pages: seq<Page>,
      clocks: seq<Timestamp>, now: Timestamp)
    requires Descending(rows)
  {
    IsWalk(rows, mac, hours, first, pages, clocks) && forall k :: 0 <= k < |clocks| ==> clocks[k] == now
  }

  lemma WalkGoesOnAt(rows: seq<Flow>, mac: Mac, hours: Hours, first: Request, pages: seq<Page>, clocks: seq<Timestamp>,
      now: Timestamp) returns (q: Page)
    requires Descending(rows) && Named(rows) && IsWalkAt(rows, mac, hours, first, pages, clocks, now)
    requires NoneLaterThan(rows, now) && pages[|pages| - 1].next.Some?
    ensures IsWalkAt(rows, mac, hours, first, pages + [q], clocks + [now], now)
  {
    q := WalkGoesOn(rows, mac, hours, first, pages, clocks, now);
  }

  lemma FirstPage(rows: seq<Flow>, mac: Mac, hours: Hours, first: Request, now: Timestamp) returns (p: Page)
    requires Descending(rows) && first.cursor.None? && Admit(mac, hours, now, first).Admitted?
    ensures IsWalkAt(rows, mac, hours, first, [p], [now], now)
  {
    p := Answer(rows, mac, hours, now, first).page;
  }

  ghost function WalksAt(rows: seq<Flow>, mac: Mac, hours: Hours, first: Request, now: Timestamp)
    : (seq<Page>, seq<Timestamp>) -> bool
    requires Descending(rows)
  {
    (pages: seq<Page>, clocks: seq<Timestamp>) => IsWalkAt(rows, mac, hours, first, pages, clocks, now)
  }

  lemma WalksAreBounded(rows: seq<Flow>, mac: Mac, hours: Hours, first: Request, now: Timestamp)
    requires Descending(rows)
    ensures forall pages, clocks :: WalksAt(rows, mac, hours, first, now)(pages, clocks) ==> 0 < |pages| <= |rows| + 1
  {
    forall pages, clocks | IsWalkAt(rows, mac, hours, first, pages, clocks, now) ensures 0 < |pages| <= |rows| + 1 {
      WalkReads(rows, mac, hours, first, pages, clocks);
    }
  }

  predicate IsLast(p: Page) { p.next.None? }

  lemma WalksExtend(rows: seq<Flow>, mac: Mac, hours: Hours, first: Request, now: Timestamp)
    requires Descending(rows) && Named(rows) && NoneLaterThan(rows, now)
    ensures var walks := WalksAt(rows, mac, hours, first, now);
            forall pages, clocks :: walks(pages, clocks) && |pages| > 0 && !IsLast(pages[|pages| - 1]) ==>
                Extends(walks, pages, clocks)
  {
    var walks := WalksAt(rows, mac, hours, first, now);
    forall pages: seq<Page>, clocks: seq<Timestamp> | walks(pages, clocks) && |pages| > 0 && !IsLast(pages[|pages| - 1])
      ensures Extends(walks, pages, clocks)
    {
      var q := WalkGoesOnAt(rows, mac, hours, first, pages, clocks, now);
      assert walks(pages + [q], clocks + [now]);
    }
  }

  /** Without rows dated ahead of it, a walk at a standing clock can be followed to its end. */
  lemma WalkEnds(rows: seq<Flow>, mac: Mac, hours: Hours, first: Request, now: Timestamp)
      returns (pages: seq<Page>, clocks: seq<Timestamp>)
    requires Descending(rows) && Named(rows) && NoneLaterThan(rows, now)
    requires first.cursor.None? && Admit(mac, hours, now, first).Admitted?
    ensures IsWalkAt(rows, mac, hours, first, pages, clocks, now) && pages[|pages| - 1].next.None?
  {
    var walks := WalksAt(rows, mac, hours, first, now);
    WalksAreBounded(rows, mac, hours, first, now);
    WalksExtend(rows, mac, hours, first, now);
    var p := FirstPage(rows, mac, hours, first, now);
    assert walks([p], [now]);
    pages, clocks := Completes(walks, IsLast, |rows| + 1, [p], [now]);
    assert walks(pages, clocks);
  }

  /** At one clock the pages, read to the end, are exactly the rows of the window: paging refines the unpaged query. */
  lemma PagesAreTheWindow(rows: seq<Flow>, mac: Mac, hours: Hours, first: Request, pages: seq<Page>,
      clocks: seq<Timestamp>, now: Timestamp)
    requires Descending(rows) && IsWalkAt(rows, mac, hours, first, pages, clocks, now) && pages[|pages| - 1].next.None?
    ensures Visited(pages) == Filter((f: Flow) => f.lastSeen >= Cutoff(pages[0].window, hours, now), rows)
  {
    ShownIsPlanned(rows, mac, hours, now, first, pages[0]);
    WindowMoves(rows, mac, hours, first, pages, clocks);
    WalkReads(rows, mac, hours, first, pages, clocks);
    Cuts(rows, pages[0].since);
  }
}

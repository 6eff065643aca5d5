/** Turning pages at one clock: a step back undoes a step forward, and a step forward a step back. */
module PageTurning {
  import opened Domain
  import opened FlowPaging
  import opened PagingWalks

  /** The plan a page's own cursor leads to, if the clock stands still. */
  function Turned(plan: Plan, direction: PageDirection, f: Flow): Plan {
    plan.(direction := direction, anchor := Some(KeyOf(f)))
  }

  lemma TurnedIsAdmitted(mac: Mac, hours: Hours, now: Timestamp, plan: Plan, direction: PageDirection, f: Flow)
    requires ValidLimit(plan.limit) && Cutoff(plan.window, hours, now) <= plan.since <= now
    requires f.flowId != EMPTY && plan.since <= f.lastSeen <= now
    ensures Admit(mac, hours, now, Following(CursorAt(mac, plan, direction, f))) == Admitted(Turned(plan, direction, f))
  {}

  lemma LaterRowsAreOlder(rows: seq<Flow>, i: nat, j: nat)
    requires Descending(rows) && i < j < |rows|
    ensures rows[j].lastSeen <= rows[i].lastSeen && rows[i] != rows[j]
  {}

  /** Reading forward from the row after `end - 1`. */
  lemma ForwardStretch(rows: seq<Flow>, plan: Plan, end: nat)
    requires Descending(rows) && 0 < end <= Fresh(rows, plan.since)
    ensures var n := Fresh(rows, plan.since);
            n <= |rows| && StretchOf(rows, Turned(plan, Older, rows[end - 1]))
                == Stretch(end, Min(end + plan.limit, n), end + plan.limit < n)
  {
    Cuts(rows, plan.since);
    RowAtItsKey(rows, end - 1);
  }

  /** Reading backward from row `end`. */
  lemma BackwardStretch(rows: seq<Flow>, plan: Plan, end: nat)
    requires Descending(rows) && end <= Fresh(rows, plan.since) && end < |rows|
    ensures StretchOf(rows, Turned(plan, Newer, rows[end]))
         == Stretch(if end > plan.limit then end - plan.limit else 0, end, end > plan.limit)
  {
    RowAtItsKey(rows, end);
  }

  /** The row a forward cursor points at is still stored. */
  ghost predicate AnchorStored(rows: seq<Flow>, plan: Plan) {
    plan.direction == Older && plan.anchor.Some? ==> exists i :: 0 <= i < |rows| && KeyOf(rows[i]) == plan.anchor.value
  }

  /** A page offers a previous page exactly when there are newer rows than it shows. */
  lemma PreviousMeansNewerRows(rows: seq<Flow>, mac: Mac, hours: Hours, now: Timestamp, r: Request, p: Page)
    requires Descending(rows) && Shows(rows, mac, hours, now, r, p) && p.items != []
    requires AnchorStored(rows, Admit(mac, hours, now, r).plan)
    ensures p.previous.Some? <==> p.items[0] != rows[0]
  {
    var plan := Admit(mac, hours, now, r).plan;
    AdmittedPlan(mac, hours, now, r);
    ShownIsPlanned(rows, mac, hours, now, r, p);
    PlannedRows(rows, mac, plan);
    var s := StretchOf(rows, plan);
    if s.from > 0 {
      LaterRowsAreOlder(rows, 0, s.from);
    }
    if plan.direction == Older && plan.anchor.Some? {
      var i :| 0 <= i < |rows| && KeyOf(rows[i]) == plan.anchor.value;
      RowAtItsKey(rows, i);
    }
  }

  /** Where a backward page ends, and where a forward page that has a next one ends, its limit tells where it starts. */
  lemma FollowedStretch(rows: seq<Flow>, plan: Plan)
    requires Descending(rows) && OffersNext(plan, StretchOf(rows, plan).more)
        && (plan.direction == Newer ==> plan.anchor.Some?)
    ensures var s := StretchOf(rows, plan);
            s.from == if s.to > plan.limit then s.to - plan.limit else 0
  {}

  lemma NextStretch(rows: seq<Flow>, mac: Mac, hours: Hours, now: Timestamp, plan: Plan, q: Page)
    requires Descending(rows) && Named(rows) && ValidLimit(plan.limit)
        && Cutoff(plan.window, hours, now) <= plan.since <= now
    requires Follows(rows, mac, hours, Planned(rows, mac, plan), now, q)
    ensures var end := StretchOf(rows, plan).to;
            && 0 < end <= Fresh(rows, plan.since) <= |rows| && rows[end - 1].lastSeen <= now
            && q == Planned(rows, mac, Turned(plan, Older, rows[end - 1]))
  {
    PlannedRows(rows, mac, plan);
    var f := rows[StretchOf(rows, plan).to - 1];
    CursorPlan(mac, hours, plan, Older, f, now);
    TurnedIsAdmitted(mac, hours, now, plan, Older, f);
  }

  /** Turning back from a next page shows the same rows, with the same next page. */
  lemma BackShowsSameRows(rows: seq<Flow>, mac: Mac, plan: Plan)
    requires Descending(rows) && (plan.direction == Newer ==> plan.anchor.Some?)
    requires Planned(rows, mac, plan).next.Some? && StretchOf(rows, plan).to < |rows|
    ensures var p, end := Planned(rows, mac, plan), StretchOf(rows, plan).to;
            var back := Planned(rows, mac, Turned(plan, Newer, rows[end]));
            && p.items != [] && back.items == p.items && back.next == p.next
            && (back.previous.Some? <==> p.items[0] != rows[0])
            && (back.previous.Some? && p.previous.Some? ==> back.previous == p.previous)
  {
    PlannedRows(rows, mac, plan);
    FollowedStretch(rows, plan);
    var s := StretchOf(rows, plan);
    BackwardStretch(rows, plan, s.to);
    PlannedRows(rows, mac, Turned(plan, Newer, rows[s.to]));
    if s.from > 0 {
      LaterRowsAreOlder(rows, 0, s.from);
    }
  }

  lemma NextOffersBack(rows: seq<Flow>, mac: Mac, hours: Hours, now: Timestamp, plan: Plan, q: Page)
    requires Descending(rows) && Named(rows) && ValidLimit(plan.limit)
        && Cutoff(plan.window, hours, now) <= plan.since <= now
    requires Follows(rows, mac, hours, Planned(rows, mac, plan), now, q) && q.items != []
    ensures var end := StretchOf(rows, plan).to;
            && end < |rows| && q.previous == Some(CursorAt(mac, plan, Newer, rows[end]))
            && Admit(mac, hours, now, Following(q.previous.value)) == Admitted(Turned(plan, Newer, rows[end]))
  {
    NextStretch(rows, mac, hours, now, plan, q);
    var end := StretchOf(rows, plan).to;
    ForwardStretch(rows, plan, end);
    PlannedRows(rows, mac, Turned(plan, Older, rows[end - 1]));
    LaterRowsAreOlder(rows, end - 1, end);
    assert rows[end] in rows;
    TurnedIsAdmitted(mac, hours, now, plan, Newer, rows[end]);
  }

  /** At one clock, the next page's previous page is this page, cursors included. */
  lemma BackUndoesNext(rows: seq<Flow>, mac: Mac, hours: Hours, now: Timestamp, r: Request, p: Page, q: Page)
    requires Descending(rows) && Named(rows) && Shows(rows, mac, hours, now, r, p)
    requires Follows(rows, mac, hours, p, now, q) && q.items != []
    requires AnchorStored(rows, Admit(mac, hours, now, r).plan)
    ensures q.previous.Some? && Shows(rows, mac, hours, now, Following(q.previous.value), p)
  {
    var plan := Admit(mac, hours, now, r).plan;
    AdmittedPlan(mac, hours, now, r);
    ShownIsPlanned(rows, mac, hours, now, r, p);
    NextOffersBack(rows, mac, hours, now, plan, q);
    BackShowsSameRows(rows, mac, plan);
    PreviousMeansNewerRows(rows, mac, hours, now, r, p);
  }

  /** A next page is empty exactly after a page that reached the end of the window, which only a backward one offers. */
  lemma EmptyNextPage(rows: seq<Flow>, mac: Mac, hours: Hours, now: Timestamp, plan: Plan, q: Page)
    requires Descending(rows) && Named(rows) && ValidLimit(plan.limit)
        && Cutoff(plan.window, hours, now) <= plan.since <= now
    requires Follows(rows, mac, hours, Planned(rows, mac, plan), now, q)
    ensures q.items == [] <==> StretchOf(rows, plan).to == Fresh(rows, plan.since)
    ensures q.items == [] ==> plan.direction == Newer
  {
    NextStretch(rows, mac, hours, now, plan, q);
    var end := StretchOf(rows, plan).to;
    ForwardStretch(rows, plan, end);
    PlannedItems(rows, mac, Turned(plan, Older, rows[end - 1]));
  }

  /** The page before one that starts at row `start > 0` ends there, and its next page starts there again. */
  lemma NextShowsSameRows(rows: seq<Flow>, mac: Mac, plan: Plan)
    requires Descending(rows) && ValidLimit(plan.limit) && (plan.direction == Newer ==> plan.anchor.Some?)
    requires Planned(rows, mac, plan).previous.Some? && StretchOf(rows, plan).from > 0
    ensures var q, start := Planned(rows, mac, plan), StretchOf(rows, plan).from;
            && start < Fresh(rows, plan.since) <= |rows|
            && (var back := Planned(rows, mac, Turned(plan, Newer, rows[start]));
                back.next == Some(CursorAt(mac, plan, Older, rows[start - 1])))
            && (var forth := Planned(rows, mac, Turned(plan, Older, rows[start - 1]));
                && forth.items == q.items
                && (forth == q <==> plan.direction == Older || StretchOf(rows, plan).to < Fresh(rows, plan.since)))
  {
    PlannedRows(rows, mac, plan);
    StretchFits(rows, plan);
    var start := StretchOf(rows, plan).from;
    BackwardStretch(rows, plan, start);
    ForwardStretch(rows, plan, start);
    PlannedRows(rows, mac, Turned(plan, Newer, rows[start]));
    PlannedRows(rows, mac, Turned(plan, Older, rows[start - 1]));
  }

  /**
   * At one clock, the previous page's next page shows this page's rows again. It is this page, cursors included,
   * exactly when this page was read forward or the window goes on after it: a page read backward offers a next page
   * even where the window ends, and one read forward does not.
   */
  lemma NextUndoesBack(rows: seq<Flow>, mac: Mac, hours: Hours, now: Timestamp, r: Request, q: Page)
    returns (back: Page, forth: Page)
    requires Descending(rows) && Named(rows) && NoneLaterThan(rows, now)
    requires Shows(rows, mac, hours, now, r, q) && q.previous.Some?
    requires AnchorStored(rows, Admit(mac, hours, now, r).plan)
    ensures Shows(rows, mac, hours, now, Following(q.previous.value), back)
    ensures Follows(rows, mac, hours, back, now, forth) && forth.items == q.items
    ensures var plan := Admit(mac, hours, now, r).plan;
            forth == q <==> plan.direction == Older || StretchOf(rows, plan).to < Fresh(rows, plan.since)
  {
    var plan := Admit(mac, hours, now, r).plan;
    AdmittedPlan(mac, hours, now, r);
    ShownIsPlanned(rows, mac, hours, now, r, q);
    PlannedRows(rows, mac, plan);
    PreviousMeansNewerRows(rows, mac, hours, now, r, q);
    var start := StretchOf(rows, plan).from;
    NextShowsSameRows(rows, mac, plan);
    assert rows[start] in rows && rows[start - 1] in rows;
    LaterRowsAreOlder(rows, start - 1, start);
    TurnedIsAdmitted(mac, hours, now, plan, Newer, rows[start]);
    TurnedIsAdmitted(mac, hours, now, plan, Older, rows[start - 1]);
    back := Planned(rows, mac, Turned(plan, Newer, rows[start]));
    forth := Planned(rows, mac, Turned(plan, Older, rows[start - 1]));
  }

  function SampleRow(id: FlowId, at: Timestamp): Flow {
    Flow(id, 0, at, Endpoints(Tcp, Upload, 1, 1, 1, V4(1), 1, V4(2), 443), NatFields(None, None, None, None),
         Counters(1, 1, 1), None, New)
  }

  /** Three rows of a device, the last of which has just left the window of an hour. */
  function SampleRows(): seq<Flow> { [SampleRow(3, 4_900_000), SampleRow(2, 4_800_000), SampleRow(1, 1_400_500)] }

  /** A backward cursor to that row, offered when it was still in the window. */
  const SAMPLE_CURSOR := Payload(FLOW_CURSOR_VERSION, 1, Hours1, 1_400_000, 1, Newer, 1_400_500, 1)

  lemma SampleStretch()
    ensures Descending(SampleRows()) && Named(SampleRows()) && NoneLaterThan(SampleRows(), 5_001_000)
    ensures Admit(1, 24, 5_001_000, Following(SAMPLE_CURSOR))
         == Admitted(Plan(Hours1, 1_401_000, 1, Newer, Some(RowKey(1_400_500, 1))))
    ensures var plan := Admit(1, 24, 5_001_000, Following(SAMPLE_CURSOR)).plan;
            StretchOf(SampleRows(), plan) == Stretch(1, 2, true) && Fresh(SampleRows(), plan.since) == 2
  {
    var rows := SampleRows();
    assert Descending(rows);
    Cuts(rows, 1_401_000);
    assert rows[1].lastSeen >= 1_401_000 && rows[2].lastSeen < 1_401_000;
    RowAtItsKey(rows, 2);
  }

  /** Such a page: it ends the window, and back and forth from it leads to another page. */
  lemma BackwardPageEndsWindow() returns (q: Page, back: Page, forth: Page)
    ensures Descending(SampleRows()) && Shows(SampleRows(), 1, 24, 5_001_000, Following(SAMPLE_CURSOR), q)
    ensures q.previous.Some? && Shows(SampleRows(), 1, 24, 5_001_000, Following(q.previous.value), back)
    ensures Follows(SampleRows(), 1, 24, back, 5_001_000, forth)
    ensures forth.items == q.items && forth != q
  {
    SampleStretch();
    var plan := Admit(1, 24, 5_001_000, Following(SAMPLE_CURSOR)).plan;
    q := Planned(SampleRows(), 1, plan);
    PlannedRows(SampleRows(), 1, plan);
    back, forth := NextUndoesBack(SampleRows(), 1, 24, 5_001_000, Following(SAMPLE_CURSOR), q);
  }
}

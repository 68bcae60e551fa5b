/**
 Cursor paging over a timeline that grows at its head and is pruned at its tail while a
 client walks back through it, one page at a time.
 */
module Paging {
  import opened Options
  import opened EventLog

  datatype Page = Page(events: seq<Row>, cursor: Option<nat>)

  function PageFilter(unit: Option<string>, beforeId: Option<int>): Filter {
    Filter(unit, None, None, beforeId)
  }

  /** One page: it asks the store for one row more than it returns, to know whether an
      older page exists. */
  function PageOf(rows: seq<Row>, limit: int, unit: Option<string>, beforeId: Option<int>): Page {
    CutPage(Newest(rows, PageFilter(unit, beforeId), Clamp(limit) + 1), Clamp(limit))
  }

  function CutPage(got: seq<Row>, bounded: nat): Page {
    var events := Take(got, bounded);
    Page(events, if bounded < |got| && events != [] then Some(events[|events| - 1].id) else None)
  }

  /** Following the cursor: page `i` is read from `tables[i]`, with a limit of its own. */
  function Walk(tables: seq<seq<Row>>, limits: seq<int>, unit: Option<string>, beforeId: Option<int>): seq<Page> {
    if tables == [] || limits == [] then []
    else
      var page := PageOf(tables[0], limits[0], unit, beforeId);
      [page] + if page.cursor.None? then [] else Walk(tables[1..], limits[1..], unit, Some(page.cursor.value))
  }

  /** The cursor works for all of these limits. */
  predicate BelowCap(limits: seq<int>) { forall i :: 0 <= i < |limits| ==> limits[i] < MAX_ROWS }

  function Events(pages: seq<Page>): seq<Row> {
    if pages == [] then [] else pages[0].events + Events(pages[1..])
  }

  ghost predicate Descending(rows: seq<Row>) {
    forall i, j :: 0 <= i < j < |rows| ==> rows[j].id < rows[i].id
  }

  // ---------------------------------------------------------------- one page

  /** A row of the table that is of the unit, if one is given, and from before the cursor. */
  ghost predicate Wanted(rows: seq<Row>, unit: Option<string>, beforeId: Option<int>, r: Row) {
    r in rows && (unit.Some? ==> r.ev.unit == unit) && (beforeId.Some? ==> r.id < beforeId.value)
  }

  /** What a page says about an ordered table. Without a cursor nothing is left out; with
      one, exactly the rows from the cursor up are here. */
  ghost predicate GoodPage(p: Page, rows: seq<Row>, unit: Option<string>, beforeId: Option<int>) {
    && Descending(p.events)
    && (forall r :: r in p.events ==> Wanted(rows, unit, beforeId, r))
    && (p.cursor.None? ==> forall r :: Wanted(rows, unit, beforeId, r) ==> r in p.events)
    && (p.cursor.Some? ==>
          && p.events != [] && p.events[|p.events| - 1].id == p.cursor.value
          && (forall r :: Wanted(rows, unit, beforeId, r) && p.cursor.value <= r.id ==> r in p.events))
  }

  lemma ListingDescends(wanted: seq<Row>, listing: seq<Row>)
    requires Chronological(wanted) && listing == Reverse(wanted)
    ensures Descending(listing) && forall r :: r in listing <==> r in wanted
  {
    forall r ensures r in listing <==> r in wanted {
      if r in wanted {
        var k :| 0 <= k < |wanted| && wanted[k] == r;
        assert listing[|wanted| - 1 - k] == r;
      }
    }
  }

  /** Every page over an ordered table is good, for every limit the cursor works for. */
  lemma PageIsGood(rows: seq<Row>, limit: int, unit: Option<string>, beforeId: Option<int>)
    requires Chronological(rows) && limit < MAX_ROWS
    ensures GoodPage(PageOf(rows, limit, unit, beforeId), rows, unit, beforeId)
    ensures |PageOf(rows, limit, unit, beforeId).events| <= Clamp(limit)
  {
    var f := PageFilter(unit, beforeId);
    var wanted := Select(rows, f);
    SelectMembers(rows, f);
    SelectKeepsOrder(rows, f);
    NewestFirstReverses(wanted);
    ListingDescends(wanted, NewestFirst(wanted));
    GoodFromListing(PageOf(rows, limit, unit, beforeId), NewestFirst(wanted), Clamp(limit), rows, unit, beforeId);
  }

  /** A page with a cursor is full. */
  lemma PageIsFull(rows: seq<Row>, limit: int, unit: Option<string>, beforeId: Option<int>)
    requires PageOf(rows, limit, unit, beforeId).cursor.Some?
    ensures |PageOf(rows, limit, unit, beforeId).events| == if limit < 1 then 1 else limit
  {
  }

  lemma GoodFromListing(page: Page, listing: seq<Row>, n: nat,
                        rows: seq<Row>, unit: Option<string>, beforeId: Option<int>)
    requires Descending(listing) && 0 < n
    requires forall r :: r in listing <==> r in rows && Matches(PageFilter(unit, beforeId), r)
    requires page.events == Take(listing, n) && (page.cursor.Some? <==> n < |listing|)
    requires page.cursor.Some? ==> page.cursor == Some(page.events[n - 1].id)
    ensures GoodPage(page, rows, unit, beforeId) && |page.events| <= n
  {
    forall r | Wanted(rows, unit, beforeId, r) && (page.cursor.Some? ==> page.cursor.value <= r.id)
      ensures r in page.events
    {
    }
    forall r | r in page.events ensures Wanted(rows, unit, beforeId, r) {
      assert r in listing;
    }
  }

  /** At a limit of 1000 or more the extra row is never fetched, so no cursor is ever
      given: rows past the first thousand cannot be reached. */
  lemma NoCursorAtCap(rows: seq<Row>, limit: int, unit: Option<string>, beforeId: Option<int>)
    requires MAX_ROWS <= limit
    ensures PageOf(rows, limit, unit, beforeId).cursor.None?
    ensures |PageOf(rows, limit, unit, beforeId).events| <= MAX_ROWS
  {
  }

  lemma OldestIsLast(rows: seq<Row>, n: nat)
    requires Chronological(rows) && n < |rows|
    ensures rows[0] !in Take(Reverse(rows), n)
  {
    var top := Take(Reverse(rows), n);
    forall i | 0 <= i < |top| ensures top[i] != rows[0] {
      assert top[i] == rows[|rows| - 1 - i];
    }
  }

  /** And there are such rows as soon as the table has more than a thousand. */
  lemma LostAtCap(rows: seq<Row>)
    requires Chronological(rows) && MAX_ROWS < |rows|
    ensures var p := PageOf(rows, MAX_ROWS, None, None);
      Wanted(rows, None, None, rows[0]) && rows[0] !in p.events && p.cursor.None?
  {
    var f := PageFilter(None, None);
    SelectAll(rows, f);
    NewestFirstReverses(rows);
    NoCursorAtCap(rows, MAX_ROWS, None, None);
    OldestIsLast(rows, MAX_ROWS);
    assert PageOf(rows, MAX_ROWS, None, None).events == Take(Reverse(rows), MAX_ROWS);
  }

  function FullTable(d: Draft): seq<Row> { seq(MAX_ROWS + 1, i requires 0 <= i => Row(i + 1, i, d)) }

  /** Such a table. */
  lemma OneRowIsLost(d: Draft)
    ensures var rows := FullTable(d); var p := PageOf(rows, MAX_ROWS, None, None);
      Wanted(rows, None, None, rows[0]) && rows[0] !in p.events && p.cursor.None?
  {
    LostAtCap(FullTable(d));
  }

  // ---------------------------------------------------------------- the table moves on

  /** `b` is `a` after any appends and prunes: new rows get new ids. */
  ghost predicate Follows(a: Log, b: Log) {
    && a.nextId <= b.nextId
    && forall r :: r in b.rows ==> r in a.rows || a.nextId <= r.id
  }

  ghost predicate Tidy(log: Log) {
    Chronological(log.rows) && forall r :: r in log.rows ==> r.id < log.nextId
  }

  /** Whatever else the daemon does between two pages, the table it leaves follows. */
  lemma {:induction false} StepsFollow(log: Log, steps: seq<Step>)
    ensures Follows(log, AppliedAll(log, steps))
    decreases |steps|
  {
    if steps != [] {
      var next := Applied(log, steps[0]);
      if steps[0].Expire? {
        SelectMembers(log.rows, SinceFilter(Cutoff(steps[0].at, steps[0].days)));
      }
      StepsFollow(next, steps[1..]);
    }
  }

  ghost predicate Unfolding(logs: seq<Log>) {
    && (forall i :: 0 <= i < |logs| ==> Tidy(logs[i]))
    && (forall i :: 0 <= i < |logs| - 1 ==> Follows(logs[i], logs[i + 1]))
  }

  function Tables(logs: seq<Log>): (ts: seq<seq<Row>>)
    ensures |ts| == |logs| && forall i :: 0 <= i < |logs| ==> ts[i] == logs[i].rows
  {
    if logs == [] then [] else [logs[0].rows] + Tables(logs[1..])
  }

  /** The row was gone before the page that would have held it was read: all pages read
      so far were newer. */
  ghost predicate PrunedBeforeItsPage(logs: seq<Log>, pages: seq<Page>, r: Row, p: nat) {
    && p < |pages| <= |logs| && r !in logs[p].rows
    && forall e :: e in Events(pages[..p]) ==> r.id < e.id
  }

  ghost predicate Ended(pages: seq<Page>) {
    pages != [] && pages[|pages| - 1].cursor.None?
  }

  /** The pages of a walk, known by what they say rather than by how they are read. */
  ghost predicate Trail(logs: seq<Log>, pages: seq<Page>, unit: Option<string>, beforeId: Option<int>)
    decreases |logs|
  {
    && 0 < |pages| <= |logs|
    && GoodPage(pages[0], logs[0].rows, unit, beforeId)
    && (pages[0].cursor.None? || |logs| == 1 ==> |pages| == 1)
    && (pages[0].cursor.Some? && 1 < |logs| ==>
          Trail(logs[1..], pages[1..], unit, Some(pages[0].cursor.value)))
  }

  lemma {:induction false} WalkIsTrail(logs: seq<Log>, limits: seq<int>, unit: Option<string>, beforeId: Option<int>)
    requires Unfolding(logs) && logs != [] && |limits| == |logs| && BelowCap(limits)
    ensures Trail(logs, Walk(Tables(logs), limits, unit, beforeId), unit, beforeId)
  {
    PageIsGood(logs[0].rows, limits[0], unit, beforeId);
    var page := PageOf(logs[0].rows, limits[0], unit, beforeId);
    assert Tables(logs)[1..] == Tables(logs[1..]);
    if page.cursor.Some? && 1 < |logs| {
      WalkIsTrail(logs[1..], limits[1..], unit, Some(page.cursor.value));
      var pages := Walk(Tables(logs), limits, unit, beforeId);
      assert pages[1..] == Walk(Tables(logs[1..]), limits[1..], unit, Some(page.cursor.value));
    }
  }

  lemma CursorAdvances(a: Log, b: Log, page: Page, unit: Option<string>, beforeId: Option<int>, r: Row)
    requires Follows(a, b) && Tidy(a) && GoodPage(page, a.rows, unit, beforeId) && page.cursor.Some?
    requires beforeId.Some? ==> beforeId.value <= a.nextId
    requires Wanted(b.rows, unit, Some(page.cursor.value), r)
    ensures Wanted(a.rows, unit, beforeId, r) && r.id < page.cursor.value && r !in page.events
    ensures page.cursor.value < a.nextId
  {
    var last := page.events[|page.events| - 1];
    assert last in page.events && Wanted(a.rows, unit, beforeId, last);
    forall e | e in page.events ensures page.cursor.value <= e.id {
      var k :| 0 <= k < |page.events| && page.events[k] == e;
    }
  }

  /** Every row of a walk is a wanted row that existed when the walk started, and no row
      comes twice: ids only go down. */
  lemma {:induction false} TrailSound(logs: seq<Log>, pages: seq<Page>, unit: Option<string>, beforeId: Option<int>)
    requires logs != [] && Unfolding(logs) && Trail(logs, pages, unit, beforeId)
    requires beforeId.Some? ==> beforeId.value <= logs[0].nextId
    ensures Descending(Events(pages))
    ensures forall r :: r in Events(pages) ==> Wanted(logs[0].rows, unit, beforeId, r)
  {
    var page := pages[0];
    if page.cursor.Some? && 1 < |logs| {
      var c := page.cursor.value;
      assert Follows(logs[0], logs[0 + 1]);
      assert page.events[|page.events| - 1] in page.events;
      TrailSound(logs[1..], pages[1..], unit, Some(c));
      var rest := Events(pages[1..]);
      forall r | r in rest ensures r.id < c && Wanted(logs[0].rows, unit, beforeId, r) {
        CursorAdvances(logs[0], logs[1], page, unit, beforeId, r);
      }
      DescendingConcat(page.events, rest, c);
    } else {
      assert Events(pages[1..]) == [];
      assert Events(pages) == page.events;
    }
  }

  lemma DescendingConcat(a: seq<Row>, b: seq<Row>, c: int)
    requires Descending(a) && Descending(b)
    requires (a != [] ==> c <= a[|a| - 1].id) && (forall r :: r in b ==> r.id < c)
    ensures Descending(a + b)
  {
    var s := a + b;
    forall i, j | 0 <= i < j < |s| ensures s[j].id < s[i].id {
      if i < |a| <= j {
        assert b[j - |a|] in b;
      }
    }
  }

  /** A wanted row that existed at the start is returned, or pruned before its page, or the
      walk has not got there yet. */
  lemma {:induction false} TrailComplete(logs: seq<Log>, pages: seq<Page>,
                                         unit: Option<string>, beforeId: Option<int>, r: Row)
    requires logs != [] && Unfolding(logs) && Trail(logs, pages, unit, beforeId)
    requires Wanted(logs[0].rows, unit, beforeId, r) && Ended(pages)
    ensures r in Events(pages) || exists p :: PrunedBeforeItsPage(logs, pages, r, p)
  {
    var page := pages[0];
    if r !in page.events {
      var c := page.cursor.value;
      if r !in logs[1].rows {
        PrunedNext(logs, pages, unit, beforeId, r);
      } else {
        TrailComplete(logs[1..], pages[1..], unit, Some(c), r);
        if r !in Events(pages[1..]) {
          var p :| PrunedBeforeItsPage(logs[1..], pages[1..], r, p);
          PrunedLater(logs, pages, unit, beforeId, r, p);
        }
      }
    }
  }

  lemma PrunedNext(logs: seq<Log>, pages: seq<Page>, unit: Option<string>, beforeId: Option<int>, r: Row)
    requires 1 < |pages| <= |logs| && GoodPage(pages[0], logs[0].rows, unit, beforeId)
    requires Wanted(logs[0].rows, unit, beforeId, r) && r !in pages[0].events && r !in logs[1].rows
    ensures PrunedBeforeItsPage(logs, pages, r, 1)
  {
    assert Events(pages[..1]) == pages[0].events + [];
  }

  lemma PrunedLater(logs: seq<Log>, pages: seq<Page>, unit: Option<string>, beforeId: Option<int>, r: Row, p: nat)
    requires 1 < |pages| <= |logs| && GoodPage(pages[0], logs[0].rows, unit, beforeId)
    requires Wanted(logs[0].rows, unit, beforeId, r) && r !in pages[0].events
    requires PrunedBeforeItsPage(logs[1..], pages[1..], r, p)
    ensures PrunedBeforeItsPage(logs, pages, r, p + 1)
  {
    assert pages[..p + 1][1..] == pages[1..][..p];
    assert Events(pages[..p + 1]) == pages[0].events + Events(pages[1..][..p]);
  }

  ghost function WantedSet(rows: seq<Row>, unit: Option<string>, beforeId: Option<int>): set<Row> {
    set r | r in rows && Matches(PageFilter(unit, beforeId), r)
  }

  /** Each page with a cursor uses up at least one of the rows that were there at the start. */
  lemma {:induction false} TrailEnds(logs: seq<Log>, pages: seq<Page>, unit: Option<string>, beforeId: Option<int>)
    requires logs != [] && Unfolding(logs) && Trail(logs, pages, unit, beforeId)
    requires |WantedSet(logs[0].rows, unit, beforeId)| < |logs|
    requires beforeId.Some? ==> beforeId.value <= logs[0].nextId
    ensures Ended(pages)
  {
    var page := pages[0];
    if page.cursor.Some? {
      var last := page.events[|page.events| - 1];
      assert last in page.events && last in WantedSet(logs[0].rows, unit, beforeId);
      SmallerSet({last}, WantedSet(logs[0].rows, unit, beforeId));
      assert Follows(logs[0], logs[0 + 1]);
      PageUsesRow(logs[0], logs[1], page, unit, beforeId);
      TrailEnds(logs[1..], pages[1..], unit, Some(page.cursor.value));
    }
  }

  /** A page with a cursor leaves fewer wanted rows for the next one. */
  lemma PageUsesRow(a: Log, b: Log, page: Page, unit: Option<string>, beforeId: Option<int>)
    requires Follows(a, b) && Tidy(a) && GoodPage(page, a.rows, unit, beforeId) && page.cursor.Some?
    requires beforeId.Some? ==> beforeId.value <= a.nextId
    ensures |WantedSet(b.rows, unit, Some(page.cursor.value))| < |WantedSet(a.rows, unit, beforeId)|
    ensures page.cursor.value < a.nextId
  {
    var here, next := WantedSet(a.rows, unit, beforeId), WantedSet(b.rows, unit, Some(page.cursor.value));
    var last := page.events[|page.events| - 1];
    assert last in page.events && Wanted(a.rows, unit, beforeId, last);
    forall r | r in next ensures r in here - {last} {
      CursorAdvances(a, b, page, unit, beforeId, r);
    }
    SmallerSet(next, here - {last});
  }

  lemma SmallerSet<T>(a: set<T>, b: set<T>)
    requires a <= b
    ensures |a| <= |b|
  {
    assert b == a + (b - a);
  }

  /** The pages end, go down in one sweep, hold only rows that were there at the start, and
      each of those unless it was pruned before its page was read. */
  ghost predicate Sweeps(logs: seq<Log>, pages: seq<Page>, unit: Option<string>) {
    && logs != [] && Ended(pages) && Descending(Events(pages))
    && (forall r :: r in Events(pages) ==> Wanted(logs[0].rows, unit, None, r))
    && (forall r :: Wanted(logs[0].rows, unit, None, r) ==>
          r in Events(pages) || exists p :: PrunedBeforeItsPage(logs, pages, r, p))
  }

  /** The walk from the head, over every way the table can change under it and every choice
      of limits below 1000. */
  lemma CursorWalk(logs: seq<Log>, limits: seq<int>, unit: Option<string>)
    requires logs != [] && Unfolding(logs) && |limits| == |logs| && BelowCap(limits)
    requires |WantedSet(logs[0].rows, unit, None)| < |logs|
    ensures Sweeps(logs, Walk(Tables(logs), limits, unit, None), unit)
  {
    var pages := Walk(Tables(logs), limits, unit, None);
    WalkIsTrail(logs, limits, unit, None);
    TrailSound(logs, pages, unit, None);
    TrailEnds(logs, pages, unit, None);
    forall r | Wanted(logs[0].rows, unit, None, r)
      ensures r in Events(pages) || exists p :: PrunedBeforeItsPage(logs, pages, r, p)
    {
      TrailComplete(logs, pages, unit, None, r);
    }
  }

  // ---------------------------------------------------------------- what the daemon does meanwhile

  /** The clock does not step back. */
  predicate Forward(steps: seq<Step>, from: int) {
    steps == [] || (from <= steps[0].at && Forward(steps[1..], steps[0].at))
  }

  function EndOf(steps: seq<Step>, from: int): int { if steps == [] then from else EndOf(steps[1..], steps[0].at) }

  ghost predicate TidyBy(log: Log, clock: int) { Tidy(log) && forall r :: r in log.rows ==> r.ts <= clock }

  lemma AppendKeepsTidy(log: Log, clock: int, at: int, d: Draft)
    requires TidyBy(log, clock) && clock <= at
    ensures TidyBy(Inserted(log, at, d), at)
  {
    var rows := Inserted(log, at, d).rows;
    forall i, j | 0 <= i < j < |rows| ensures rows[i].id < rows[j].id && rows[i].ts <= rows[j].ts {
      assert rows[i] == log.rows[i] && log.rows[i] in log.rows;
    }
  }

  /** Appends and prunes, under such a clock, keep the table in order. */
  lemma {:induction false} StepsKeepTidy(log: Log, clock: int, steps: seq<Step>)
    requires TidyBy(log, clock) && Forward(steps, clock)
    ensures TidyBy(AppliedAll(log, steps), EndOf(steps, clock))
    decreases |steps|
  {
    if steps != [] {
      match steps[0] {
        case Append(at, d) => AppendKeepsTidy(log, clock, at, d);
        case Expire(at, days) =>
          SelectKeepsOrder(log.rows, SinceFilter(Cutoff(at, days)));
          SelectMembers(log.rows, SinceFilter(Cutoff(at, days)));
      }
      StepsKeepTidy(Applied(log, steps[0]), steps[0].at, steps[1..]);
    }
  }

  /** The log at each page, when `between[i]` happens after the `i`-th. */
  function Unfolded(log: Log, between: seq<seq<Step>>): seq<Log>
    decreases |between|
  {
    [log] + if between == [] then [] else Unfolded(AppliedAll(log, between[0]), between[1..])
  }

  predicate AllForward(between: seq<seq<Step>>, from: int) {
    between == [] || (Forward(between[0], from) && AllForward(between[1..], EndOf(between[0], from)))
  }

  lemma {:induction false} UnfoldedIsUnfolding(log: Log, clock: int, between: seq<seq<Step>>)
    requires TidyBy(log, clock) && AllForward(between, clock)
    ensures Unfolding(Unfolded(log, between))
    ensures |Unfolded(log, between)| == |between| + 1 && Unfolded(log, between)[0] == log
    decreases |between|
  {
    if between != [] {
      var next := AppliedAll(log, between[0]);
      StepsKeepTidy(log, clock, between[0]);
      StepsFollow(log, between[0]);
      UnfoldedIsUnfolding(next, EndOf(between[0], clock), between[1..]);
      UnfoldingMore(log, Unfolded(next, between[1..]));
    }
  }

  lemma UnfoldingMore(log: Log, logs: seq<Log>)
    requires Tidy(log) && Unfolding(logs) && (logs != [] ==> Follows(log, logs[0]))
    ensures Unfolding([log] + logs)
  {
    var all := [log] + logs;
    forall i | 0 <= i < |all| - 1 ensures Follows(all[i], all[i + 1]) {
      if i > 0 { assert Follows(logs[i - 1], logs[i - 1 + 1]); }
    }
  }

  /** So a walk sweeps whatever the daemon appends and prunes between its pages, as long as
      the clock does not step back. */
  lemma WalkOverSteps(log: Log, clock: int, between: seq<seq<Step>>, limits: seq<int>, unit: Option<string>)
    requires TidyBy(log, clock) && AllForward(between, clock)
    requires |limits| == |between| + 1 && BelowCap(limits) && |WantedSet(log.rows, unit, None)| <= |between|
    ensures var logs := Unfolded(log, between); Sweeps(logs, Walk(Tables(logs), limits, unit, None), unit)
  {
    UnfoldedIsUnfolding(log, clock, between);
    CursorWalk(Unfolded(log, between), limits, unit);
  }

  // ---------------------------------------------------------------- why the clock matters

  function Same<T>(x: T, n: nat): (ts: seq<T>)
    ensures |ts| == n && forall i :: 0 <= i < n ==> ts[i] == x
  {
    if n == 0 then [] else [x] + Same(x, n - 1)
  }

  /** The whole of an unchanging timeline, walked page after page. */
  function WalkStill(rows: seq<Row>, limits: seq<int>): seq<Row> {
    Events(Walk(Same(rows, |rows| + 1), limits, None, None))
  }

  /** Whatever the limits below 1000, the walk gives the timeline back. */
  ghost predicate WalksWhole(rows: seq<Row>) {
    forall limits: seq<int> | |limits| == |rows| + 1 && BelowCap(limits) :: WalkStill(rows, limits) == NewestFirst(rows)
  }

  ghost predicate GrowingIds(rows: seq<Row>) {
    forall i, j :: 0 <= i < j < |rows| ==> rows[i].id < rows[j].id
  }

  /** Pages are cut by (time, id) but continued by id alone. Walking gives the timeline back
      for all limits below 1000 exactly when time never runs backwards along the ids. */
  lemma PagingNeedsClock(rows: seq<Row>)
    requires GrowingIds(rows)
    ensures WalksWhole(rows) <==> Chronological(rows)
  {
    if Chronological(rows) {
      forall limits: seq<int> | |limits| == |rows| + 1 && BelowCap(limits)
        ensures WalkStill(rows, limits) == NewestFirst(rows)
      {
        StillWalkIsWhole(rows, limits);
      }
    }
    if WalksWhole(rows) { WholeIsChronological(rows); }
  }

  /** For one step back it is not. */
  lemma ClockSteppedBack(d: Draft)
    ensures var rows := [Row(1, 5, d), Row(2, 3, d)]; GrowingIds(rows) && !WalksWhole(rows)
  {
    var rows := [Row(1, 5, d), Row(2, 3, d)];
    assert rows[1].ts < rows[0].ts;
    PagingNeedsClock(rows);
  }

  lemma WholeIsChronological(rows: seq<Row>)
    requires GrowingIds(rows) && WalksWhole(rows)
    ensures Chronological(rows)
  {
    assert WalkStill(rows, Same(1, |rows| + 1)) == NewestFirst(rows);
    SinglesWalk(Same(rows, |rows| + 1), None);
    SinglesDescend(Same(rows, |rows| + 1), None);
    NewestFirstIsSorted(rows);
    BothOrders(rows, NewestFirst(rows));
  }

  /** A listing that is both newest first and descending in ids leaves the clock no choice. */
  lemma BothOrders(rows: seq<Row>, out: seq<Row>)
    requires GrowingIds(rows) && Descending(out) && forall r :: r in out <==> r in rows
    requires forall i, j :: 0 <= i < j < |out| ==> Newer(out[i], out[j])
    ensures Chronological(rows)
  {
    forall i, j | 0 <= i < j < |rows| ensures rows[i].ts <= rows[j].ts {
      assert rows[i] in out && rows[j] in out;
      var a :| 0 <= a < |out| && out[a] == rows[i];
      var b :| 0 <= b < |out| && out[b] == rows[j];
      assert b < a;
      assert Newer(out[b], out[a]);
    }
  }

  /** A walk with pages of one row each. */
  function Singles(tables: seq<seq<Row>>, beforeId: Option<int>): seq<Row> {
    if tables == [] then []
    else
      var page := PageOf(tables[0], 1, None, beforeId);
      page.events + if page.cursor.None? then [] else Singles(tables[1..], Some(page.cursor.value))
  }

  lemma {:induction false} SinglesWalk(tables: seq<seq<Row>>, beforeId: Option<int>)
    ensures Events(Walk(tables, Same(1, |tables|), None, beforeId)) == Singles(tables, beforeId)
  {
    if tables != [] {
      assert Same(1, |tables|)[1..] == Same(1, |tables| - 1);
      var pages := Walk(tables, Same(1, |tables|), None, beforeId);
      var page := PageOf(tables[0], 1, None, beforeId);
      if page.cursor.None? {
        assert pages == [page];
      } else {
        SinglesWalk(tables[1..], Some(page.cursor.value));
        assert pages[1..] == Walk(tables[1..], Same(1, |tables| - 1), None, Some(page.cursor.value));
      }
    }
  }

  /** Such a walk continues by id, so its ids only go down, whatever the clock did. */
  lemma {:induction false} SinglesDescend(tables: seq<seq<Row>>, beforeId: Option<int>)
    requires forall i :: 0 <= i < |tables| ==> GrowingIds(tables[i])
    ensures Descending(Singles(tables, beforeId))
    ensures beforeId.Some? ==> forall r :: r in Singles(tables, beforeId) ==> r.id < beforeId.value
  {
    if tables != [] {
      var page := PageOf(tables[0], 1, None, beforeId);
      SinglePage(tables[0], beforeId);
      if page.cursor.Some? {
        SinglesDescend(tables[1..], Some(page.cursor.value));
        DescendingConcat(page.events, Singles(tables[1..], Some(page.cursor.value)), page.cursor.value);
      }
    }
  }

  lemma SinglePage(rows: seq<Row>, beforeId: Option<int>)
    requires GrowingIds(rows)
    ensures var page := PageOf(rows, 1, None, beforeId);
      && |page.events| <= 1
      && (beforeId.Some? ==> forall r :: r in page.events ==> r.id < beforeId.value)
      && (page.cursor.Some? ==> |page.events| == 1 && page.events[0].id == page.cursor.value)
  {
    var f := PageFilter(None, beforeId);
    ReadMeaning(rows, f, 2);
    var got := Newest(rows, f, 2);
    assert PageOf(rows, 1, None, beforeId).events == Take(got, 1);
    forall r | r in Take(got, 1) ensures r in got && Matches(f, r) {}
  }

  lemma StillWalkIsWhole(rows: seq<Row>, limits: seq<int>)
    requires Chronological(rows) && |limits| == |rows| + 1 && BelowCap(limits)
    ensures WalkStill(rows, limits) == NewestFirst(rows)
  {
    var log := Log(rows, 1 + MaxId(rows), rows);
    TablesOfSame(log, |rows| + 1);
    StillWalkMembers(log, Same(log, |rows| + 1), limits);
    NewestFirstReverses(rows);
    ListingDescends(rows, Reverse(rows));
    SameDescent(WalkStill(rows, limits), Reverse(rows));
  }

  lemma {:induction false} TablesOfSame(log: Log, n: nat)
    ensures Tables(Same(log, n)) == Same(log.rows, n)
  {
    if n > 0 {
      TablesOfSame(log, n - 1);
      assert Same(log, n)[1..] == Same(log, n - 1);
    }
  }

  lemma StillWalkMembers(log: Log, logs: seq<Log>, limits: seq<int>)
    requires Tidy(log) && |logs| == |log.rows| + 1 && |limits| == |logs| && BelowCap(limits)
    requires forall i :: 0 <= i < |logs| ==> logs[i] == log
    ensures var out := Events(Walk(Tables(logs), limits, None, None));
      Descending(out) && forall r :: r in out <==> r in Reverse(log.rows)
  {
    RowsAreFew(log.rows);
    CursorWalk(logs, limits, None);
    var pages := Walk(Tables(logs), limits, None, None);
    forall r ensures r in Events(pages) <==> r in Reverse(log.rows) {
      StillWalkHasAll(logs, pages, log, r);
    }
  }

  lemma StillWalkHasAll(logs: seq<Log>, pages: seq<Page>, log: Log, r: Row)
    requires logs != [] && forall i :: 0 <= i < |logs| ==> logs[i] == log
    requires forall r :: r in Events(pages) ==> Wanted(log.rows, None, None, r)
    requires forall r :: Wanted(log.rows, None, None, r) ==>
               r in Events(pages) || exists p :: PrunedBeforeItsPage(logs, pages, r, p)
    ensures r in Events(pages) <==> r in Reverse(log.rows)
  {
    var n := |log.rows|;
    if r in log.rows {
      var k :| 0 <= k < n && log.rows[k] == r;
      assert Reverse(log.rows)[n - 1 - k] == r;
      assert Wanted(log.rows, None, None, r);
    }
  }

  function MaxId(rows: seq<Row>): (m: nat)
    ensures forall r :: r in rows ==> r.id <= m
  {
    if rows == [] then 0
    else
      var m := MaxId(rows[..|rows| - 1]);
      assert forall r :: r in rows ==> r in rows[..|rows| - 1] || r == rows[|rows| - 1];
      if m < rows[|rows| - 1].id then rows[|rows| - 1].id else m
  }

  lemma {:induction false} RowsAreFew(rows: seq<Row>)
    ensures |WantedSet(rows, None, None)| <= |rows|
  {
    if rows != [] {
      var n := |rows| - 1;
      RowsAreFew(rows[..n]);
      assert rows == rows[..n] + [rows[n]];
      assert WantedSet(rows, None, None) == WantedSet(rows[..n], None, None) + {rows[n]};
    } else {
      assert WantedSet(rows, None, None) == {};
    }
  }

  /** Two descending sequences of the same rows are the same sequence. */
  lemma {:induction false} SameDescent(a: seq<Row>, b: seq<Row>)
    requires Descending(a) && Descending(b)
    requires forall r :: r in a <==> r in b
    ensures a == b
  {
    assert b != [] ==> b[0] in b;
    if a != [] {
      assert a[0] in b;
      assert b[0] in a;
      assert a[0].id == b[0].id;
      assert a[0] == b[0];
      forall r ensures r in a[1..] <==> r in b[1..] {
        assert r in a <==> r == a[0] || r in a[1..];
        assert r in b <==> r == b[0] || r in b[1..];
        assert a[0] !in a[1..] && b[0] !in b[1..];
      }
      SameDescent(a[1..], b[1..]);
    }
  }
}

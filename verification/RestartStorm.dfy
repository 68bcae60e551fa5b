/**
 Where the promise of the restart budget ends: the guard reads fifty rows, and a unit that
 fails often enough, inside one window, outruns them.
 */
module RestartStorm {
  import opened Options
  import opened EventLog
  import opened AutofixEngine
  import opened RestartGuard
  import opened RestartBudget

  ghost predicate GuardIsComplete(rows: seq<Row>, unit: string, since: int) {
    Restarts(GuardRows(rows, unit, since)) == Restarts(Select(rows, GuardFilter(unit, since)))
  }

  /** The guard counts every in-window restart on every table with `n` in-window audit rows. */
  ghost predicate GuardCountsAll(n: nat) {
    forall rows: seq<Row>, unit: string, since: int
      | Chronological(rows) && |Select(rows, GuardFilter(unit, since))| == n
      :: GuardIsComplete(rows, unit, since)
  }

  /** Seconds from the guard's read to the row: a restart that is tried and checked. */
  const RESTART_S := 2

  /** The time of the `i`-th of failures that are `p` seconds apart. */
  function Moment(p: nat, i: nat): nat { if i == 0 then 0 else Moment(p, i - 1) + p }

  lemma {:induction false} MomentGrows(p: nat, i: nat, j: nat)
    requires i <= j
    ensures Moment(p, i) <= Moment(p, j) && (i < j ==> Moment(p, i) + p <= Moment(p, j))
  {
    if i < j { MomentGrows(p, i, j - 1); }
  }

  lemma {:induction false} MomentIsProduct(p: nat, i: nat)
    ensures Moment(p, i) == p * i
  {
    if i > 0 {
      MomentIsProduct(p, i - 1);
      assert p * i == p * (i - 1) + p;
    }
  }

  const STORM_UNIT := "u"
  const STORM_KEY := Key(STORM_UNIT, User)

  /** One restart, then nothing but informs: the table that outruns the cap. */
  function StormRow(p: nat, i: nat, restarts: nat): Row {
    Row(i + 1, Moment(p, i) + RESTART_S, Draft(Autofix, Some(STORM_UNIT), None, None, Words(""),
        NO_META.(action := Some(if i < restarts then ActRestart else ActInform))))
  }

  /** The guard's count is complete for `n` in-window rows exactly when `n` is at most 50. */
  lemma GuardCap(n: nat)
    ensures GuardCountsAll(n) <==> n <= GUARD_ROWS
  {
    if n <= GUARD_ROWS {
      forall rows: seq<Row>, unit: string, since: int
        | Chronological(rows) && |Select(rows, GuardFilter(unit, since))| == n
        ensures GuardIsComplete(rows, unit, since)
      {
        GuardCounts(rows, unit, since);
      }
    } else {
      GuardMisses(n);
    }
  }

  lemma GuardMisses(n: nat)
    requires GUARD_ROWS < n
    ensures !GuardCountsAll(n)
  {
    MissedRestart(seq(n, i requires 0 <= i => StormRow(1, i, 1)), n);
  }

  lemma MissedRestart(rows: seq<Row>, n: nat)
    requires GUARD_ROWS < |rows| == n && StormTable(rows, 1, 1)
    ensures !GuardCountsAll(n)
  {
    StormGuard(rows, 1, 0, 1);
    StormTail(rows, 1, 1);
    RestartsPrefix(rows, 0, 1);
    assert !GuardIsComplete(rows, STORM_UNIT, 0);
  }

  function Least(a: int, b: int): int { if a < b then a else b }

  /** Rows number `from`, `from + 1`, ... of which those below `restarts` are restarts. */
  lemma {:induction false} RestartsPrefix(rows: seq<Row>, from: nat, restarts: nat)
    requires forall i :: 0 <= i < |rows| ==> (IsRestart(rows[i]) <==> from + i < restarts)
    ensures Restarts(rows) == if from < restarts then Least(restarts - from, |rows|) else 0
  {
    if rows != [] {
      RestartsPrefix(rows[1..], from + 1, restarts);
    }
  }

  ghost predicate StormTable(rows: seq<Row>, p: nat, restarts: nat) {
    forall i :: 0 <= i < |rows| ==>
      && rows[i].id == i + 1 && rows[i].ts == Moment(p, i) + RESTART_S
      && rows[i].ev.kind == Autofix && rows[i].ev.unit == Some(STORM_UNIT)
      && (IsRestart(rows[i]) <==> i < restarts)
  }

  /** How many of the last fifty rows of such a table are restarts. */
  lemma StormTail(rows: seq<Row>, p: nat, restarts: nat)
    requires StormTable(rows, p, restarts)
    ensures |rows| <= GUARD_ROWS ==> Restarts(LastRows(rows)) == Least(restarts, |rows|)
    ensures GUARD_ROWS < |rows| && restarts <= |rows| - GUARD_ROWS ==> Restarts(LastRows(rows)) == 0
    ensures GUARD_ROWS < |rows| && |rows| - GUARD_ROWS < restarts
      ==> Restarts(LastRows(rows)) == Least(restarts - (|rows| - GUARD_ROWS), GUARD_ROWS)
  {
    var from := if |rows| <= GUARD_ROWS then 0 else |rows| - GUARD_ROWS;
    assert LastRows(rows) == rows[from..];
    RestartsPrefix(LastRows(rows), from, restarts);
  }

  lemma StormIsOrdered(rows: seq<Row>, p: nat, restarts: nat)
    requires StormTable(rows, p, restarts)
    ensures Chronological(rows)
  {
    forall i, j | 0 <= i < j < |rows| ensures rows[i].id < rows[j].id && rows[i].ts <= rows[j].ts {
      MomentGrows(p, i, j);
    }
  }

  /** When all the rows of such a table are in the window, that is what the guard counts. */
  lemma StormGuard(rows: seq<Row>, p: nat, since: int, restarts: nat)
    requires StormTable(rows, p, restarts) && since <= 0
    ensures Chronological(rows) && Select(rows, GuardFilter(STORM_UNIT, since)) == rows
    ensures Restarts(GuardRows(rows, STORM_UNIT, since)) == Restarts(LastRows(rows))
  {
    StormIsOrdered(rows, p, restarts);
    SelectAll(rows, GuardFilter(STORM_UNIT, since));
    GuardCounts(rows, STORM_UNIT, since);
  }

  function StormWorld(p: nat, i: nat): World {
    World(Moment(p, i), 0, [], Verified(true, ""), Moment(p, i) + RESTART_S)
  }

  /** A unit that fails again and again and whose restarts all succeed. */
  function StormEvent(p: nat, i: nat): Event { Handle(STORM_KEY, StormWorld(p, i)) }

  function Storm(p: nat, n: nat): (es: seq<Event>)
    ensures |es| == n
  {
    if n == 0 then [] else Storm(p, n - 1) + [StormEvent(p, n - 1)]
  }

  /** How many failures it takes to outrun a limit. */
  function StormLength(limit: nat): nat { if limit <= GUARD_ROWS then GUARD_ROWS + 2 else limit + 1 }

  /** A storm with failures `p` seconds apart fits the window. */
  ghost predicate StormFits(cfg: Config, p: nat) {
    cfg.enable && 1 <= cfg.maxAttempts && RESTART_S <= p && p * (StormLength(cfg.maxAttempts) - 1) <= cfg.windowS
  }

  /** Then all its failures lie in one window. */
  lemma StormInWindow(cfg: Config, p: nat, n: nat)
    requires StormFits(cfg, p) && n < StormLength(cfg.maxAttempts)
    ensures Moment(p, n) <= cfg.windowS
  {
    MomentGrows(p, n, StormLength(cfg.maxAttempts) - 1);
    MomentIsProduct(p, StormLength(cfg.maxAttempts) - 1);
  }

  ghost predicate StormLog(log: Log, p: nat, n: nat, restarts: nat) {
    |log.rows| == n && log.nextId == n + 1 && log.history == log.rows && StormTable(log.rows, p, restarts)
  }

  /** The guard lets the first `maxAttempts` failures restart, and then the very last one. */
  lemma StormCount(cfg: Config, rows: seq<Row>, p: nat, since: int)
    requires 1 <= cfg.maxAttempts && |rows| < StormLength(cfg.maxAttempts)
    requires StormTable(rows, p, cfg.maxAttempts) && since <= 0
    ensures Restarts(GuardRows(rows, STORM_UNIT, since)) < cfg.maxAttempts
       <==> |rows| < cfg.maxAttempts || |rows| == StormLength(cfg.maxAttempts) - 1
  {
    StormGuard(rows, p, since, cfg.maxAttempts);
    StormTail(rows, p, cfg.maxAttempts);
  }

  lemma StormStep(cfg: Config, log: Log, p: nat, n: nat) returns (d: Draft)
    requires StormFits(cfg, p) && n < StormLength(cfg.maxAttempts) && StormLog(log, p, n, cfg.maxAttempts)
    ensures Executed(log, cfg, StormEvent(p, n)) == Inserted(log, Moment(p, n) + RESTART_S, d)
    ensures d.kind == Autofix && d.unit == Some(STORM_UNIT)
    ensures d.meta.action == Some(ActRestart) <==> n < cfg.maxAttempts || n == StormLength(cfg.maxAttempts) - 1
  {
    var w := StormWorld(p, n);
    StormInWindow(cfg, p, n);
    StormCount(cfg, log.rows, p, w.readAt - cfg.windowS);
    var row := Verdict(cfg, STORM_KEY, Recorded(log.rows, cfg, STORM_KEY, w), w);
    d := row.value;
  }

  lemma {:induction false} StormInTime(p: nat, n: nat)
    requires RESTART_S <= p
    ensures InTime(Storm(p, n), 0) && EndTime(Storm(p, n), 0) <= Moment(p, n)
  {
    if n > 0 {
      StormInTime(p, n - 1);
      assert Storm(p, n)[..n - 1] == Storm(p, n - 1);
    }
  }

  lemma StormLogMore(log: Log, p: nat, n: nat, d: Draft, restarts: nat)
    requires StormLog(log, p, n, restarts) && d.kind == Autofix && d.unit == Some(STORM_UNIT)
    requires d.meta.action == Some(ActRestart) <==> n < restarts
    ensures StormLog(Inserted(log, Moment(p, n) + RESTART_S, d), p, n + 1, restarts)
  {
  }

  lemma StormAdvances(cfg: Config, log: Log, p: nat, n: nat)
    requires StormFits(cfg, p) && n + 1 < StormLength(cfg.maxAttempts) && StormLog(log, p, n, cfg.maxAttempts)
    ensures StormLog(Executed(log, cfg, StormEvent(p, n)), p, n + 1, cfg.maxAttempts)
  {
    var d := StormStep(cfg, log, p, n);
    StormLogMore(log, p, n, d, cfg.maxAttempts);
  }

  lemma ExecuteMore(log: Log, cfg: Config, events: seq<Event>, e: Event)
    ensures Execute(log, cfg, events + [e]) == Executed(Execute(log, cfg, events), cfg, e)
  {
    assert (events + [e])[..|events|] == events;
  }

  /** `log` is the log after the first `n` failures. */
  ghost predicate StormRan(cfg: Config, p: nat, n: nat, log: Log)
    requires 1 <= cfg.maxAttempts
  {
    Execute(EMPTY_LOG, cfg, Storm(p, n)) == log && StormLog(log, p, n, cfg.maxAttempts)
  }

  lemma {:induction false} StormRuns(cfg: Config, p: nat, n: nat) returns (log: Log)
    requires StormFits(cfg, p) && n < StormLength(cfg.maxAttempts)
    ensures StormRan(cfg, p, n, log)
  {
    if n == 0 {
      log := EMPTY_LOG;
    } else {
      var before := StormRuns(cfg, p, n - 1);
      ExecuteMore(EMPTY_LOG, cfg, Storm(p, n - 1), StormEvent(p, n - 1));
      StormAdvances(cfg, before, p, n - 1);
      log := Executed(before, cfg, StormEvent(p, n - 1));
    }
  }

  // The storm as the poll loop meets it: a tick that finds the unit failing, and one that
  // finds it well again.

  function FailingTick(p: nat, i: nat): Tick { Tick([], Some([STORM_KEY]), (k: Key) => StormWorld(p, i)) }

  function CalmTick(p: nat, i: nat): Tick { Tick([], Some([]), (k: Key) => StormWorld(p, i)) }

  function StormTicks(p: nat, n: nat): seq<Tick> {
    if n == 0 then [] else StormTicks(p, n - 1) + [FailingTick(p, n - 1)] + [CalmTick(p, n)]
  }

  /** One tick more of a run, from its own view. */
  lemma RunEventsMore(ticks: seq<Tick>, t: Tick)
    requires t.before == [] && t.sample.Some?
    ensures RunEvents({}, ticks + [t])
         == RunEvents({}, ticks) + HandleEach(Fresh(Distinct(t.sample.value), SeenAfter({}, ticks)), t.world)
    ensures SeenAfter({}, ticks + [t]) == KeySet(t.sample.value)
  {
    var more := ticks + [t];
    assert more[..|more| - 1] == ticks && more[|more| - 1] == t;
    assert TickKeys({}, more, |ticks|) == Fresh(Distinct(t.sample.value), SeenAfter({}, ticks));
    assert RunEvents({}, ticks) + Others([]) == RunEvents({}, ticks);
  }

  lemma FailingMore(ticks: seq<Tick>, p: nat, i: nat)
    requires SeenAfter({}, ticks) == {}
    ensures RunEvents({}, ticks + [FailingTick(p, i)]) == RunEvents({}, ticks) + [StormEvent(p, i)]
  {
    RunEventsMore(ticks, FailingTick(p, i));
    assert [STORM_KEY][..0] == [];
    assert Distinct([STORM_KEY]) == Distinct([]) + [STORM_KEY];
    assert Fresh([STORM_KEY], {}) == Fresh([], {}) + [STORM_KEY];
    assert HandleEach([STORM_KEY], FailingTick(p, i).world) == [StormEvent(p, i)];
  }

  lemma CalmMore(ticks: seq<Tick>, p: nat, i: nat)
    ensures var more := ticks + [CalmTick(p, i)];
      RunEvents({}, more) == RunEvents({}, ticks) && SeenAfter({}, more) == {}
  {
    RunEventsMore(ticks, CalmTick(p, i));
    assert HandleEach([], CalmTick(p, i).world) == [];
  }

  /** Polled from a clean start, `ticks` are the events `es`, and leave nothing failing. */
  ghost predicate Polled(ticks: seq<Tick>, es: seq<Event>) { RunEvents({}, ticks) == es && SeenAfter({}, ticks) == {} }

  lemma StormMore(ticks: seq<Tick>, es: seq<Event>, p: nat, i: nat)
    requires Polled(ticks, es)
    ensures Polled(ticks + [FailingTick(p, i)] + [CalmTick(p, i + 1)], es + [StormEvent(p, i)])
  {
    FailingMore(ticks, p, i);
    CalmMore(ticks + [FailingTick(p, i)], p, i + 1);
  }

  lemma {:induction false} StormIsPolled(p: nat, n: nat)
    ensures Polled(StormTicks(p, n), Storm(p, n))
  {
    if n > 0 {
      StormIsPolled(p, n - 1);
      StormMore(StormTicks(p, n - 1), Storm(p, n - 1), p, n - 1);
    }
  }

  /** Every run of the poll loop keeps the budget for stretches of up to `n` audit rows. */
  ghost predicate BudgetSpan(cfg: Config, n: nat) {
    forall seed: set<Key>, ticks: seq<Tick>, start: int, unit: string
      | InTime(RunEvents(seed, ticks), start)
      :: WithinBudget(PolledAudit(cfg, seed, ticks, unit), cfg, n)
  }

  /** How far the promise goes, over all runs: up to one row less than a storm takes, which is
      51 rows for every limit of at most 50. */
  lemma BudgetSpanIsExact(cfg: Config, p: nat, n: nat)
    requires Sound(cfg) && StormFits(cfg, p)
    ensures BudgetSpan(cfg, n) <==> n < StormLength(cfg.maxAttempts)
  {
    if n < StormLength(cfg.maxAttempts) {
      forall seed: set<Key>, ticks: seq<Tick>, start: int, unit: string | InTime(RunEvents(seed, ticks), start)
        ensures WithinBudget(PolledAudit(cfg, seed, ticks, unit), cfg, n)
      {
        PollingKeepsBudget(cfg, seed, ticks, start, unit);
        ShortIsWithinBudget(PolledAudit(cfg, seed, ticks, unit), cfg, n);
      }
    } else {
      StormBreaksBudget(cfg, p, n);
    }
  }

  lemma ShortIsWithinBudget(audit: seq<Row>, cfg: Config, n: nat)
    requires 0 <= cfg.maxAttempts && n < StormLength(cfg.maxAttempts)
    requires WithinBudget(audit, cfg, GUARD_ROWS + 1)
    ensures WithinBudget(audit, cfg, n)
  {
    forall i, j | 0 <= i < j <= |audit| && j - i <= n && audit[j - 1].ts - audit[i].ts <= cfg.windowS
      ensures Restarts(audit[i..j]) <= cfg.maxAttempts
    {
      RestartsAtMost(audit[i..j]);
    }
  }

  lemma {:induction false} RestartsAtMost(rows: seq<Row>)
    ensures Restarts(rows) <= |rows|
  {
    if rows != [] { RestartsAtMost(rows[1..]); }
  }

  /** Too many restarts in one window break the budget. */
  lemma TooManyRestarts(rows: seq<Row>, cfg: Config, n: nat)
    requires 0 < |rows| <= n && rows[|rows| - 1].ts - rows[0].ts <= cfg.windowS && Restarts(rows) > cfg.maxAttempts
    ensures !WithinBudget(rows, cfg, n) && !Promise(rows, cfg)
  {
    assert rows[0..|rows|] == rows;
  }

  /** The storm, polled, records one restart more than the limit inside one window. */
  lemma StormBreaksBudget(cfg: Config, p: nat, n: nat)
    requires StormFits(cfg, p) && StormLength(cfg.maxAttempts) <= n
    ensures var ticks := StormTicks(p, StormLength(cfg.maxAttempts));
      && RunEvents({}, ticks) == Storm(p, StormLength(cfg.maxAttempts)) && InTime(RunEvents({}, ticks), 0)
      && !WithinBudget(PolledAudit(cfg, {}, ticks, STORM_UNIT), cfg, n)
      && !Promise(PolledAudit(cfg, {}, ticks, STORM_UNIT), cfg)
  {
    var m := StormLength(cfg.maxAttempts);
    StormIsPolled(p, m);
    StormInTime(p, m);
    RunMeaning(EngineState({}, [], EMPTY_LOG), cfg, StormTicks(p, m));
    var rows := StormEnds(cfg, p);
    TooManyRestarts(rows, cfg, n);
  }

  lemma StormEnds(cfg: Config, p: nat) returns (rows: seq<Row>)
    requires StormFits(cfg, p)
    ensures AuditOf(Execute(EMPTY_LOG, cfg, Storm(p, StormLength(cfg.maxAttempts))).history, STORM_UNIT) == rows
    ensures OneTooMany(cfg, rows)
  {
    var n := StormLength(cfg.maxAttempts) - 1;
    var log := StormRuns(cfg, p, n);
    var d := StormStep(cfg, log, p, n);
    ExecuteMore(EMPTY_LOG, cfg, Storm(p, n), StormEvent(p, n));
    StormInWindow(cfg, p, n);
    rows := log.rows + [Row(log.nextId, Moment(p, n) + RESTART_S, d)];
    LastOfStorm(cfg, log.rows, p, rows[n]);
  }

  /** A window full of rows, with one restart more than the limit. */
  ghost predicate OneTooMany(cfg: Config, rows: seq<Row>)
    requires 1 <= cfg.maxAttempts
  {
    && |rows| == StormLength(cfg.maxAttempts) && rows[|rows| - 1].ts - rows[0].ts <= cfg.windowS
    && Restarts(rows) == cfg.maxAttempts + 1
  }

  lemma LastOfStorm(cfg: Config, before: seq<Row>, p: nat, last: Row)
    requires 1 <= cfg.maxAttempts && |before| == StormLength(cfg.maxAttempts) - 1
    requires StormTable(before, p, cfg.maxAttempts) && IsRestart(last) && Matches(AutofixOf(STORM_UNIT), last)
    requires last.ts == Moment(p, |before|) + RESTART_S && Moment(p, |before|) <= cfg.windowS
    ensures AuditOf(before + [last], STORM_UNIT) == before + [last] && OneTooMany(cfg, before + [last])
  {
    var rows := before + [last];
    forall r | r in rows ensures Matches(AutofixOf(STORM_UNIT), r) {}
    SelectAll(rows, AutofixOf(STORM_UNIT));
    StormTotal(before, p, last, cfg.maxAttempts);
    assert rows[0] == before[0];
  }

  lemma StormTotal(before: seq<Row>, p: nat, last: Row, restarts: nat)
    requires StormTable(before, p, restarts) && IsRestart(last) && restarts <= |before|
    ensures Restarts(before + [last]) == restarts + 1
  {
    RestartsPrefix(before, 0, restarts);
    RestartsConcat(before, [last]);
  }

  /** The cap is real: whatever the limit, if a storm fits the window, a run of the poll loop
      exists that breaks the promise. */
  lemma PromiseBreaksPastCap(cfg: Config, p: nat)
    requires StormFits(cfg, p)
    ensures exists ticks: seq<Tick> ::
      InTime(RunEvents({}, ticks), 0) && !Promise(PolledAudit(cfg, {}, ticks, STORM_UNIT), cfg)
  {
    StormBreaksBudget(cfg, p, StormLength(cfg.maxAttempts));
  }

  // ---------------------------------------------------------------- when it is kept

  /** The unit is handled at most every `p` seconds. */
  ghost predicate Spaced(events: seq<Event>, unit: string, p: nat) {
    forall i, j :: 0 <= i < j < |events| && HandlesUnit(events[i], unit) && HandlesUnit(events[j], unit)
      ==> events[i].world.writeAt + p <= events[j].world.writeAt
  }

  predicate HandlesUnit(e: Event, unit: string) { e.Handle? && e.key.unit == unit }

  /** Neighbouring rows are at least `p` seconds apart. */
  ghost predicate Apart(audit: seq<Row>, p: nat) {
    forall i :: 0 < i < |audit| ==> audit[i - 1].ts + p <= audit[i].ts
  }

  /** The last audit row is of some handling of the unit. */
  ghost predicate OfSomeHandling(audit: seq<Row>, events: seq<Event>, unit: string) {
    audit != [] ==>
      exists i :: 0 <= i < |events| && HandlesUnit(events[i], unit) && events[i].world.writeAt == audit[|audit| - 1].ts
  }

  /** What one event adds to the audit rows of a unit: nothing, or one row when it handles it. */
  lemma EventAudit(log: Log, cfg: Config, e: Event, from: int, unit: string) returns (more: seq<Row>)
    requires Sound(cfg) && EventInTime(e, from)
    ensures AuditOf(Executed(log, cfg, e).history, unit) == AuditOf(log.history, unit) + more
    ensures more == [] || (|more| == 1 && HandlesUnit(e, unit) && more[0].ts == e.world.writeAt)
  {
    more := [];
    match e
    case Other(s) => ForeignAudit(log, [s], from, unit);
    case Handle(key, w) =>
      ForeignAudit(log, w.during, w.readAt, unit);
      var waited := AppliedAll(log, w.during);
      var row := Verdict(cfg, key, Recorded(log.rows, cfg, key, w), w);
      if row.Some? {
        AppendedAudit(waited, w.writeAt, row.value, unit);
        if key.unit == unit { more := [Row(waited.nextId, w.writeAt, row.value)]; }
      }
  }

  lemma {:induction false} ForeignAudit(log: Log, steps: seq<Step>, from: int, unit: string)
    requires StepsInTime(steps, from)
    ensures AuditOf(AppliedAll(log, steps).history, unit) == AuditOf(log.history, unit)
    decreases |steps|
  {
    if steps != [] {
      match steps[0] {
        case Append(at, d) => AppendedAudit(log, at, d, unit);
        case Expire(_, _) =>
      }
      ForeignAudit(Applied(log, steps[0]), steps[1..], StepTime(steps[0]), unit);
    }
  }

  /** Handlings that are spaced leave audit rows that are. */
  lemma {:induction false} SpacedRows(cfg: Config, events: seq<Event>, start: int, unit: string, p: nat)
    requires Sound(cfg) && InTime(events, start) && Spaced(events, unit, p)
    ensures var audit := AuditOf(Execute(EMPTY_LOG, cfg, events).history, unit);
      Apart(audit, p) && OfSomeHandling(audit, events, unit)
  {
    if events != [] {
      var n := |events| - 1;
      var log := Execute(EMPTY_LOG, cfg, events[..n]);
      SpacedRows(cfg, events[..n], start, unit, p);
      var more := EventAudit(log, cfg, events[n], EndTime(events[..n], start), unit);
      OneMoreRow(AuditOf(log.history, unit), more, events, unit, p);
    }
  }

  lemma OneMoreRow(audit: seq<Row>, more: seq<Row>, events: seq<Event>, unit: string, p: nat)
    requires events != [] && Spaced(events, unit, p)
    requires var n := |events| - 1;
      && Apart(audit, p) && OfSomeHandling(audit, events[..n], unit)
      && (more == [] || (|more| == 1 && HandlesUnit(events[n], unit) && more[0].ts == events[n].world.writeAt))
    ensures Apart(audit + more, p) && OfSomeHandling(audit + more, events, unit)
  {
    var n := |events| - 1;
    if audit != [] {
      var i :| 0 <= i < n && HandlesUnit(events[..n][i], unit)
            && events[..n][i].world.writeAt == audit[|audit| - 1].ts;
      assert events[i] == events[..n][i];
    }
    if more == [] {
      assert audit + more == audit;
    } else {
      assert HandlesUnit(events[n], unit);
    }
  }

  lemma {:induction false} SpanAtLeast(audit: seq<Row>, i: nat, j: nat, p: nat)
    requires Apart(audit, p) && i <= j < |audit|
    ensures audit[i].ts + Moment(p, j - i) <= audit[j].ts
  {
    if i < j { SpanAtLeast(audit, i, j - 1, p); }
  }

  /** Every run in which each unit is handled at most every `p` seconds keeps the promise. */
  ghost predicate PromiseKept(cfg: Config, p: nat) {
    forall seed: set<Key>, ticks: seq<Tick>, start: int, unit: string
      | InTime(RunEvents(seed, ticks), start) && Spaced(RunEvents(seed, ticks), unit, p)
      :: Promise(PolledAudit(cfg, seed, ticks, unit), cfg)
  }

  /** And this is so if and only if a storm of that spacing does not fit the window. */
  lemma PromiseIsExact(cfg: Config, p: nat)
    requires Sound(cfg) && cfg.enable && 1 <= cfg.maxAttempts && RESTART_S <= p
    ensures PromiseKept(cfg, p) <==> cfg.windowS < p * (StormLength(cfg.maxAttempts) - 1)
  {
    if cfg.windowS < p * (StormLength(cfg.maxAttempts) - 1) {
      forall seed: set<Key>, ticks: seq<Tick>, start: int, unit: string
        | InTime(RunEvents(seed, ticks), start) && Spaced(RunEvents(seed, ticks), unit, p)
        ensures Promise(PolledAudit(cfg, seed, ticks, unit), cfg)
      {
        RunMeaning(EngineState(seed, [], EMPTY_LOG), cfg, ticks);
        SpacedRows(cfg, RunEvents(seed, ticks), start, unit, p);
        PollingKeepsBudget(cfg, seed, ticks, start, unit);
        SpacedIsKept(PolledAudit(cfg, seed, ticks, unit), cfg, p);
      }
    } else {
      StormBreaksBudget(cfg, p, StormLength(cfg.maxAttempts));
      StormIsSpaced(p, StormLength(cfg.maxAttempts));
    }
  }

  lemma SpacedIsKept(audit: seq<Row>, cfg: Config, p: nat)
    requires 1 <= cfg.maxAttempts && cfg.windowS < p * (StormLength(cfg.maxAttempts) - 1)
    requires Apart(audit, p) && WithinBudget(audit, cfg, GUARD_ROWS + 1)
    ensures Promise(audit, cfg)
  {
    var n := StormLength(cfg.maxAttempts) - 1;
    ShortIsWithinBudget(audit, cfg, n);
    MomentIsProduct(p, n);
    forall i, j | 0 <= i < j <= |audit| && audit[j - 1].ts - audit[i].ts <= cfg.windowS
      ensures Restarts(audit[i..j]) <= cfg.maxAttempts
    {
      WindowIsShort(audit, i, j, p, n, cfg.windowS);
    }
  }

  /** What lies in a window shorter than `n` spacings is at most `n` rows. */
  lemma WindowIsShort(audit: seq<Row>, i: nat, j: nat, p: nat, n: nat, window: int)
    requires Apart(audit, p) && i < j <= |audit| && audit[j - 1].ts - audit[i].ts <= window < Moment(p, n)
    ensures j - i <= n
  {
    SpanAtLeast(audit, i, j - 1, p);
    if n < j - i { MomentGrows(p, n, j - 1 - i); }
  }

  lemma {:induction false} StormIsSpaced(p: nat, n: nat)
    ensures Spaced(Storm(p, n), STORM_UNIT, p)
    ensures forall i :: 0 <= i < n ==> Storm(p, n)[i] == StormEvent(p, i)
  {
    if n > 0 {
      StormIsSpaced(p, n - 1);
      forall i, j | 0 <= i < j < n
        ensures Storm(p, n)[i].world.writeAt + p <= Storm(p, n)[j].world.writeAt
      {
        MomentGrows(p, i, j);
      }
    }
  }
}

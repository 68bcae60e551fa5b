/**
 What an audit row tells: over every run of the poll loop, which handling of which unit left it,
 what the guard had counted then, and how the restart came out.
 */
module AuditRows {
  import opened Options
  import opened EventLog
  import opened AutofixEngine
  import opened RestartGuard

  /** The engine restarts the unit: it is on, may touch units of that scope, and neither its own
      count nor systemd's has reached the limit. */
  predicate Tries(cfg: Config, key: Key, recorded: nat, w: World) {
    && cfg.enable && (key.scope == System ==> cfg.system)
    && recorded < cfg.maxAttempts && w.systemd < cfg.maxAttempts
  }

  predicate OfUnit(d: Draft, key: Key) {
    d.kind == Autofix && d.unit == Some(key.unit) && d.scope == Some(key.scope)
  }

  /** The person is told, with both counts. */
  predicate Informs(d: Draft, key: Key, recorded: nat, w: World) {
    && OfUnit(d, key) && d.severity == Some(Warning)
    && d.text == (if recorded == 0 && w.systemd == 0 then StoppedWorking(key.unit) else KeepsFailing(key.unit))
    && d.meta.action == Some(ActInform) && d.meta.outcome == None
    && d.meta.recorded == Some(recorded) && d.meta.systemd == Some(w.systemd)
  }

  /** A restart was tried, for the first time after as many as were counted, and came out so. */
  predicate Attempts(d: Draft, key: Key, recorded: nat, w: World) {
    && OfUnit(d, key) && w.result.Verified? && d.text == Words(w.result.message)
    && d.meta.action == Some(ActRestart)
    && (if w.result.ok then d.severity == Some(Info) && d.meta.outcome == Some(Healthy)
        else d.severity == Some(Warning) && d.meta.outcome == Some(StillFailing))
    && d.meta.attempt.Some? && recorded < d.meta.attempt.value && w.systemd < d.meta.attempt.value
    && d.meta.attempt.value in {recorded + 1, w.systemd + 1}
  }

  /** No row is left: the engine is off, or the restart raised. */
  predicate LeavesNone(cfg: Config, key: Key, recorded: nat, w: World) {
    !cfg.enable || (Tries(cfg, key, recorded, w) && w.result.Raised?)
  }

  ghost predicate Tells(cfg: Config, key: Key, recorded: nat, w: World, d: Draft) {
    && !LeavesNone(cfg, key, recorded, w)
    && if Tries(cfg, key, recorded, w) then Attempts(d, key, recorded, w) else Informs(d, key, recorded, w)
  }

  lemma VerdictMeans(cfg: Config, key: Key, recorded: nat, w: World)
    ensures var row := Verdict(cfg, key, recorded, w);
      if LeavesNone(cfg, key, recorded, w) then row == None
      else row.Some? && Tells(cfg, key, recorded, w, row.value)
  {
  }

  // ---------------------------------------------------------------- what the guard counts

  /** An audit row of the unit name, in either scope, not older than `since`. */
  predicate Counted(r: Row, unit: string, since: int) {
    r.ev.kind == Autofix && r.ev.unit == Some(unit) && since <= r.ts
  }

  lemma {:induction false} RestartsAreCounted(rows: seq<Row>)
    ensures Restarts(rows) == |set i | 0 <= i < |rows| && rows[i].ev.meta.action == Some(ActRestart)|
    decreases |rows|
  {
    var all := set i | 0 <= i < |rows| && rows[i].ev.meta.action == Some(ActRestart);
    if rows != [] {
      var n := |rows| - 1;
      var before := set i | 0 <= i < n && rows[..n][i].ev.meta.action == Some(ActRestart);
      RestartsAreCounted(rows[..n]);
      RestartsConcat(rows[..n], [rows[n]]);
      assert rows[..n] + [rows[n]] == rows;
      assert before == all - {n};
    }
  }

  /** What the guard reads of a table: audit rows of the unit in the window, at most fifty, and
      none left out while there is room, or that is newer than one that is read. */
  lemma GuardReads(rows: seq<Row>, unit: string, since: int)
    requires UniqueIds(rows)
    ensures var seen := GuardRows(rows, unit, since);
      && |seen| <= 50
      && (forall r :: r in seen ==> r in rows && Counted(r, unit, since))
      && (forall r :: r in rows && Counted(r, unit, since) && r !in seen ==>
            |seen| == 50 && forall s :: s in seen ==> Newer(s, r))
  {
    var f := GuardFilter(unit, since);
    SelectKeepsIds(rows, f);
    ReadMeaning(rows, f, GUARD_ROWS);
    SelectMembers(rows, f);
    NewestFirstIsSorted(Select(rows, f));
    var all := NewestFirst(Select(rows, f));
    forall r | r in rows && Counted(r, unit, since) && r !in GuardRows(rows, unit, since)
      ensures |GuardRows(rows, unit, since)| == 50
    {
      assert Matches(f, r) && r in all;
    }
  }

  // ---------------------------------------------------------------- over every run

  /** What the guard counts when `key` is handled. */
  function Count(cfg: Config, log: Log, key: Key, w: World): nat {
    Restarts(GuardRows(log.rows, key.unit, w.readAt - cfg.windowS))
  }

  /** The event leaves a row. */
  predicate LeavesRow(cfg: Config, log: Log, e: Event) {
    e.Handle? && !LeavesNone(cfg, e.key, Count(cfg, log, e.key, e.world), e.world)
  }

  /** It is `r`. */
  ghost predicate Left(cfg: Config, log: Log, e: Event, r: Row) {
    e.Handle? && r.ts == e.world.writeAt && Tells(cfg, e.key, Count(cfg, log, e.key, e.world), e.world, r.ev)
  }

  ghost function Before(cfg: Config, events: seq<Event>, i: nat): Log
    requires i <= |events|
  {
    Execute(EMPTY_LOG, cfg, events[..i])
  }

  ghost predicate LeftBy(cfg: Config, events: seq<Event>, i: nat, r: Row) {
    i < |events| && Left(cfg, Before(cfg, events, i), events[i], r)
  }

  /** The audit rows ever written. */
  function Audit(history: seq<Row>): seq<Row> {
    if history == [] then []
    else Audit(history[..|history| - 1])
         + if history[|history| - 1].ev.kind == Autofix then [history[|history| - 1]] else []
  }

  /** The events that leave a row, in their order. */
  ghost function Leaving(cfg: Config, events: seq<Event>): seq<nat> {
    if events == [] then []
    else
      var n := |events| - 1;
      Leaving(cfg, events[..n]) + if LeavesRow(cfg, Before(cfg, events, n), events[n]) then [n] else []
  }

  predicate OthersForeign(e: Event) {
    match e
    case Other(s) => s.Append? ==> s.draft.kind != Autofix
    case Handle(_, w) => forall s :: s in w.during && s.Append? ==> s.draft.kind != Autofix
  }

  lemma {:induction false} ForeignStepsLeaveNoAudit(log: Log, steps: seq<Step>)
    requires forall s :: s in steps && s.Append? ==> s.draft.kind != Autofix
    ensures Audit(AppliedAll(log, steps).history) == Audit(log.history)
    decreases |steps|
  {
    if steps != [] {
      assert steps[0] in steps;
      var next := Applied(log, steps[0]);
      if steps[0].Append? { assert next.history[..|log.history|] == log.history; }
      ForeignStepsLeaveNoAudit(next, steps[1..]);
    }
  }

  /** The audit rows of a run are those of its handlings that leave one, in the same order and one
      each, and each tells what its handling met. */
  ghost predicate Explained(cfg: Config, events: seq<Event>, audit: seq<Row>) {
    && |audit| == |Leaving(cfg, events)|
    && forall k :: 0 <= k < |audit| ==> LeftBy(cfg, events, Leaving(cfg, events)[k], audit[k])
  }

  lemma LeftBySooner(cfg: Config, events: seq<Event>, n: nat, i: nat, r: Row)
    requires n <= |events| && LeftBy(cfg, events[..n], i, r)
    ensures LeftBy(cfg, events, i, r)
  {
    assert events[..n][..i] == events[..i];
  }

  lemma InsertedAudit(log: Log, at: int, d: Draft)
    requires d.kind == Autofix
    ensures Audit(Inserted(log, at, d).history) == Audit(log.history) + [Row(log.nextId, at, d)]
  {
    assert Inserted(log, at, d).history[..|log.history|] == log.history;
  }

  /** What handling a unit adds to the audit rows. */
  lemma HandlingLeaves(log: Log, cfg: Config, key: Key, w: World)
    requires forall s :: s in w.during && s.Append? ==> s.draft.kind != Autofix
    ensures var recorded := Restarts(GuardRows(log.rows, key.unit, w.readAt - cfg.windowS));
      var before, after := Audit(log.history), Audit(HandledLog(log, cfg, key, w).history);
      if LeavesNone(cfg, key, recorded, w) then after == before
      else
        && |after| == |before| + 1 && after[..|before|] == before
        && after[|before|].ts == w.writeAt && Tells(cfg, key, recorded, w, after[|before|].ev)
  {
    ForeignStepsLeaveNoAudit(log, w.during);
    var recorded := Recorded(log.rows, cfg, key, w);
    VerdictMeans(cfg, key, recorded, w);
    var row := Verdict(cfg, key, recorded, w);
    if row.Some? { InsertedAudit(AppliedAll(log, w.during), w.writeAt, row.value); }
  }

  lemma OtherLeavesNone(log: Log, s: Step)
    requires s.Append? ==> s.draft.kind != Autofix
    ensures Audit(Applied(log, s).history) == Audit(log.history)
  {
    ForeignStepsLeaveNoAudit(log, [s]);
    assert AppliedAll(log, [s]) == AppliedAll(Applied(log, s), [s][1..]) == Applied(log, s);
  }

  lemma EventLeaves(cfg: Config, log: Log, e: Event)
    requires OthersForeign(e)
    ensures var before, after := Audit(log.history), Audit(Executed(log, cfg, e).history);
      if LeavesRow(cfg, log, e)
      then |after| == |before| + 1 && after[..|before|] == before && Left(cfg, log, e, after[|before|])
      else after == before
  {
    match e
    case Other(s) => OtherLeavesNone(log, s);
    case Handle(key, w) => HandlingLeaves(log, cfg, key, w);
  }

  lemma OneMoreExplained(cfg: Config, events: seq<Event>, before: seq<Row>, after: seq<Row>)
    requires events != [] && Explained(cfg, events[..|events| - 1], before)
    requires var n := |events| - 1; var log := Before(cfg, events, n);
      if LeavesRow(cfg, log, events[n])
      then |after| == |before| + 1 && after[..|before|] == before && Left(cfg, log, events[n], after[|before|])
      else after == before
    ensures Explained(cfg, events, after)
  {
    var n := |events| - 1;
    var places := Leaving(cfg, events[..n]);
    forall k | 0 <= k < |before| ensures LeftBy(cfg, events, places[k], after[k]) {
      LeftBySooner(cfg, events, n, places[k], before[k]);
      assert after[k] == after[..|before|][k];
    }
  }

  lemma {:induction false} RunIsExplained(cfg: Config, events: seq<Event>)
    requires forall e :: e in events ==> OthersForeign(e)
    ensures Explained(cfg, events, Audit(Execute(EMPTY_LOG, cfg, events).history))
  {
    if events != [] {
      var n := |events| - 1;
      assert events[n] in events;
      RunIsExplained(cfg, events[..n]);
      var log := Before(cfg, events, n);
      EventLeaves(cfg, log, events[n]);
      OneMoreExplained(cfg, events, Audit(log.history), Audit(Executed(log, cfg, events[n]).history));
    }
  }

  /** The same for the poll loop, from any seed. */
  lemma PollingIsExplained(cfg: Config, seed: set<Key>, ticks: seq<Tick>)
    requires forall e :: e in RunEvents(seed, ticks) ==> OthersForeign(e)
    ensures var st := Turns(EngineState(seed, [], EMPTY_LOG), cfg, ticks);
      Explained(cfg, RunEvents(seed, ticks), Audit(st.log.history))
  {
    RunMeaning(EngineState(seed, [], EMPTY_LOG), cfg, ticks);
    RunIsExplained(cfg, RunEvents(seed, ticks));
  }
}

/**
 How many restarts the loop guard really allows, over every run of the engine with
 everything else that reaches the store in between. The promise is at most
 `maxAttempts` restarts of a unit in any window; the guard reads only the newest
 fifty audit rows of the unit, and that cap is exactly where the promise ends.
 */
module RestartBudget {
  import opened Options
  import opened EventLog
  import opened AutofixEngine
  import opened RestartGuard

  lemma HandleKeepsInv(log: Log, cfg: Config, clock: int, key: Key, w: World, kept: nat) returns (kept': nat)
    requires Sound(cfg) && Inv(log, cfg, clock, kept) && EventInTime(Handle(key, w), clock)
    ensures Inv(HandledLog(log, cfg, key, w), cfg, w.writeAt, kept')
  {
    var recorded := Recorded(log.rows, cfg, key, w);
    var waited := AppliedAll(log, w.during);
    var end := StepsEnd(w.during, w.readAt);
    kept' := ForeignRunKeepsInv(log, cfg, w.readAt, w.during, kept);
    var row := Verdict(cfg, key, recorded, w);
    if row.Some? {
      InsertOrdered(waited, end, w.writeAt, row.value, kept');
      forall unit
        ensures WithinBudget(AuditOf(Inserted(waited, w.writeAt, row.value).history, unit), cfg, GUARD_ROWS + 1)
      {
        AppendedAudit(waited, w.writeAt, row.value, unit);
        if key.unit == unit {
          ReportFits(log, cfg, clock, key, w, kept, Row(waited.nextId, w.writeAt, row.value));
        }
      }
    }
  }

  /** The step that matters: the row that handling a unit adds keeps that unit's budget. */
  lemma ReportFits(log: Log, cfg: Config, clock: int, key: Key, w: World, kept: nat, r: Row)
    requires Sound(cfg) && Inv(log, cfg, clock, kept) && clock <= w.readAt <= w.writeAt == r.ts
    requires Verdict(cfg, key, Recorded(log.rows, cfg, key, w), w) == Some(r.ev)
    ensures WithinBudget(AuditOf(log.history, key.unit) + [r], cfg, GUARD_ROWS + 1)
  {
    var audit := AuditOf(log.history, key.unit);
    var since := w.readAt - cfg.windowS;
    AuditInOrder(log, clock, key.unit);
    RestartMeansUnder(cfg, key, Recorded(log.rows, cfg, key, w), w);
    if IsRestart(r) {
      forall i | 0 <= i <= |audit| && |audit| - i <= GUARD_ROWS && (i < |audit| ==> r.ts - audit[i].ts <= cfg.windowS)
        ensures Restarts(audit[i..]) < cfg.maxAttempts
      {
        GuardSeesTail(log, cfg, clock, kept, key.unit, since, i);
      }
    }
    RestartFits(audit, cfg, r);
  }

  lemma EventKeepsInv(log: Log, cfg: Config, clock: int, e: Event, kept: nat) returns (kept': nat)
    requires Sound(cfg) && Inv(log, cfg, clock, kept) && EventInTime(e, clock)
    ensures Inv(Executed(log, cfg, e), cfg, EventEnd(e), kept')
  {
    match e
    case Other(s) => kept' := ForeignKeepsInv(log, cfg, clock, s, kept);
    case Handle(key, w) => kept' := HandleKeepsInv(log, cfg, clock, key, w, kept);
  }

  lemma {:induction false} RunKeepsInv(log: Log, cfg: Config, clock: int, events: seq<Event>, kept: nat)
    returns (kept': nat)
    requires Sound(cfg) && Inv(log, cfg, clock, kept) && InTime(events, clock)
    ensures Inv(Execute(log, cfg, events), cfg, EndTime(events, clock), kept')
  {
    if events == [] {
      kept' := kept;
    } else {
      var init, last := events[..|events| - 1], events[|events| - 1];
      var k := RunKeepsInv(log, cfg, clock, init, kept);
      kept' := EventKeepsInv(Execute(log, cfg, init), cfg, EndTime(init, clock), last, k);
    }
  }

  /** The restart budget of every run from an empty log: over everything ever recorded,
      pruned since or not, any at most 51 consecutive audit rows of one unit name that lie
      in one window hold at most `maxAttempts` restarts. */
  lemma RestartBudgetOverRuns(cfg: Config, events: seq<Event>, start: int, unit: string)
    requires Sound(cfg) && InTime(events, start)
    ensures WithinBudget(AuditOf(Execute(EMPTY_LOG, cfg, events).history, unit), cfg, GUARD_ROWS + 1)
  {
    var _ := RunKeepsInv(EMPTY_LOG, cfg, start, events, 0);
  }

  /** The audit rows of a unit after a run of the poll loop over an empty log. */
  function PolledAudit(cfg: Config, seed: set<Key>, ticks: seq<Tick>, unit: string): seq<Row> {
    AuditOf(Turns(EngineState(seed, [], EMPTY_LOG), cfg, ticks).log.history, unit)
  }

  /** The same for the engine's own poll loop. */
  lemma PollingKeepsBudget(cfg: Config, seed: set<Key>, ticks: seq<Tick>, start: int, unit: string)
    requires Sound(cfg) && InTime(RunEvents(seed, ticks), start)
    ensures WithinBudget(PolledAudit(cfg, seed, ticks, unit), cfg, GUARD_ROWS + 1)
  {
    RunMeaning(EngineState(seed, [], EMPTY_LOG), cfg, ticks);
    RestartBudgetOverRuns(cfg, RunEvents(seed, ticks), start, unit);
  }

  // ---------------------------------------------------------------- where the promise ends

  /** The documented promise: no window holds more than `maxAttempts` restarts. */
  ghost predicate Promise(audit: seq<Row>, cfg: Config) {
    forall i, j :: 0 <= i < j <= |audit| && audit[j - 1].ts - audit[i].ts <= cfg.windowS
      ==> Restarts(audit[i..j]) <= cfg.maxAttempts
  }

  /** While no window holds more than 51 audit rows of the unit, the promise is kept. */
  lemma PromiseUpToCap(cfg: Config, events: seq<Event>, start: int, unit: string)
    requires Sound(cfg) && InTime(events, start)
    requires var audit := AuditOf(Execute(EMPTY_LOG, cfg, events).history, unit);
      forall i, j :: 0 <= i <= j < |audit| && audit[j].ts - audit[i].ts <= cfg.windowS ==> j - i <= GUARD_ROWS
    ensures Promise(AuditOf(Execute(EMPTY_LOG, cfg, events).history, unit), cfg)
  {
    RestartBudgetOverRuns(cfg, events, start, unit);
  }
}

/**
 What the loop guard sees: the log of any run with everything else that reaches the store, and
 the restarts the guard counts in it.
 */
module RestartGuard {
  import opened Options
  import opened EventLog
  import opened AutofixEngine

  /** The audit rows of one unit name. */
  function AuditOf(rows: seq<Row>, unit: string): seq<Row> { Select(rows, AutofixOf(unit)) }

  /** In every stretch of at most `span` consecutive rows inside one window there are at
      most `maxAttempts` restarts. */
  ghost predicate WithinBudget(audit: seq<Row>, cfg: Config, span: nat) {
    forall i, j :: 0 <= i < j <= |audit| && j - i <= span && audit[j - 1].ts - audit[i].ts <= cfg.windowS
      ==> Restarts(audit[i..j]) <= cfg.maxAttempts
  }

  // ---------------------------------------------------------------- runs

  function StepTime(s: Step): int { s.at }

  /** What others do to the store: the engine is the only writer of audit rows, and the
      retention pass runs only for a retention of at least one day. */
  predicate Foreign(s: Step) {
    match s
    case Append(_, d) => d.kind != Autofix
    case Expire(_, days) => 1 <= days
  }

  /** The clock does not step back. */
  predicate StepsInTime(steps: seq<Step>, from: int) {
    steps == [] ||
    (from <= StepTime(steps[0]) && Foreign(steps[0]) && StepsInTime(steps[1..], StepTime(steps[0])))
  }

  function StepsEnd(steps: seq<Step>, from: int): int {
    if steps == [] then from else StepsEnd(steps[1..], StepTime(steps[0]))
  }

  predicate EventInTime(e: Event, from: int) {
    match e
    case Other(s) => from <= StepTime(s) && Foreign(s)
    case Handle(_, w) =>
      from <= w.readAt && StepsInTime(w.during, w.readAt) && StepsEnd(w.during, w.readAt) <= w.writeAt
  }

  function EventEnd(e: Event): int {
    match e
    case Other(s) => StepTime(s)
    case Handle(_, w) => w.writeAt
  }

  predicate InTime(events: seq<Event>, from: int) {
    events == [] ||
    (InTime(events[..|events| - 1], from)
     && EventInTime(events[|events| - 1], EndTime(events[..|events| - 1], from)))
  }

  function EndTime(events: seq<Event>, from: int): int {
    if events == [] then from else EventEnd(events[|events| - 1])
  }

  // ---------------------------------------------------------------- the invariant

  /** The log is in order, pruning has only removed rows too old for the guard, and every
      unit is within budget over everything that was ever recorded. */
  ghost predicate Inv(log: Log, cfg: Config, clock: int, kept: nat) {
    && Ordered(log, clock) && Suffix(log, kept)
    && (forall i :: 0 <= i < kept ==> log.history[i].ts < clock - cfg.windowS)
    && (forall unit :: WithinBudget(AuditOf(log.history, unit), cfg, GUARD_ROWS + 1))
  }

  ghost predicate Sound(cfg: Config) { 0 <= cfg.maxAttempts && cfg.windowS <= DAY_S }

  lemma AppendedAudit(log: Log, at: int, d: Draft, unit: string)
    ensures var h := Inserted(log, at, d).history;
      AuditOf(h, unit) == if d.kind == Autofix && d.unit == Some(unit)
                          then AuditOf(log.history, unit) + [Row(log.nextId, at, d)]
                          else AuditOf(log.history, unit)
  {
    SelectConcat(log.history, [Row(log.nextId, at, d)], AutofixOf(unit));
  }

  lemma ForeignKeepsInv(log: Log, cfg: Config, clock: int, s: Step, kept: nat) returns (kept': nat)
    requires Sound(cfg) && Inv(log, cfg, clock, kept) && clock <= StepTime(s) && Foreign(s)
    ensures Inv(Applied(log, s), cfg, StepTime(s), kept')
    ensures forall unit :: AuditOf(Applied(log, s).history, unit) == AuditOf(log.history, unit)
  {
    match s
    case Append(at, d) =>
      kept' := kept;
      InsertOrdered(log, clock, at, d, kept);
      forall unit ensures AuditOf(Applied(log, s).history, unit) == AuditOf(log.history, unit) {
        AppendedAudit(log, at, d, unit);
      }
    case Expire(at, days) =>
      kept' := PruneOrdered(log, clock, Cutoff(at, days), kept);
      assert forall i :: kept <= i < kept' ==> log.history[i].ts < at - DAY_S;
  }

  lemma {:induction false} ForeignRunKeepsInv(log: Log, cfg: Config, clock: int, steps: seq<Step>, kept: nat)
    returns (kept': nat)
    requires Sound(cfg) && Inv(log, cfg, clock, kept) && StepsInTime(steps, clock)
    ensures Inv(AppliedAll(log, steps), cfg, StepsEnd(steps, clock), kept')
    ensures clock <= StepsEnd(steps, clock)
    ensures forall unit :: AuditOf(AppliedAll(log, steps).history, unit) == AuditOf(log.history, unit)
    decreases |steps|
  {
    if steps == [] {
      kept' := kept;
    } else {
      var k := ForeignKeepsInv(log, cfg, clock, steps[0], kept);
      kept' := ForeignRunKeepsInv(Applied(log, steps[0]), cfg, StepTime(steps[0]), steps[1..], k);
    }
  }

  // ---------------------------------------------------------------- what the guard sees

  /** The newest rows an ordered table has, up to the cap, oldest first. */
  function LastRows(rows: seq<Row>): seq<Row> {
    if |rows| <= GUARD_ROWS then rows else rows[|rows| - GUARD_ROWS..]
  }

  /** On an ordered table the guard sees the last fifty in-window audit rows. */
  lemma GuardCounts(rows: seq<Row>, unit: string, since: int)
    requires Chronological(rows)
    ensures var seen := Select(rows, GuardFilter(unit, since));
      Restarts(GuardRows(rows, unit, since))
        == Restarts(LastRows(seen))
  {
    var seen := Select(rows, GuardFilter(unit, since));
    SelectKeepsOrder(rows, GuardFilter(unit, since));
    NewestFirstReverses(seen);
    var last := LastRows(seen);
    assert GuardRows(rows, unit, since) == Reverse(last);
    RestartsReverse(last);
  }

  lemma PrunedRowsAreTooOld(h: seq<Row>, kept: nat, g: Filter)
    requires kept <= |h| && g.since.Some? && forall i :: 0 <= i < kept ==> h[i].ts < g.since.value
    ensures Select(h[kept..], g) == Select(h, g)
  {
    assert h == h[..kept] + h[kept..];
    SelectConcat(h[..kept], h[kept..], g);
    SelectNone(h[..kept], g);
  }

  lemma InWindowTail(h: seq<Row>, unit: string, since: int, i: nat)
    requires i <= |AuditOf(h, unit)|
    requires forall k :: i <= k < |AuditOf(h, unit)| ==> since <= AuditOf(h, unit)[k].ts
    ensures Select(h, GuardFilter(unit, since))
         == Select(AuditOf(h, unit)[..i], SinceFilter(since)) + AuditOf(h, unit)[i..]
  {
    var audit := AuditOf(h, unit);
    SelectTwice(h, AutofixOf(unit), SinceFilter(since), GuardFilter(unit, since));
    assert audit == audit[..i] + audit[i..];
    SelectConcat(audit[..i], audit[i..], SinceFilter(since));
    SelectAll(audit[i..], SinceFilter(since));
  }

  /** A tail of at most fifty in-window audit rows is within what the guard counts. */
  lemma GuardSeesTail(log: Log, cfg: Config, clock: int, kept: nat, unit: string, since: int, i: nat)
    requires Inv(log, cfg, clock, kept) && clock - cfg.windowS <= since
    requires i <= |AuditOf(log.history, unit)| && |AuditOf(log.history, unit)| - i <= GUARD_ROWS
    requires forall k :: i <= k < |AuditOf(log.history, unit)| ==> since <= AuditOf(log.history, unit)[k].ts
    ensures Restarts(AuditOf(log.history, unit)[i..]) <= Restarts(GuardRows(log.rows, unit, since))
  {
    var tail := AuditOf(log.history, unit)[i..];
    PrunedRowsAreTooOld(log.history, kept, GuardFilter(unit, since));
    InWindowTail(log.history, unit, since, i);
    GuardCounts(log.rows, unit, since);
    var older := Select(AuditOf(log.history, unit)[..i], SinceFilter(since));
    var cut := TailIsLast(older, tail);
    RestartsConcat(older[cut..], tail);
  }

  lemma TailIsLast(older: seq<Row>, tail: seq<Row>) returns (cut: nat)
    requires |tail| <= GUARD_ROWS
    ensures cut <= |older| && LastRows(older + tail) == older[cut..] + tail
  {
    cut := if |older + tail| <= GUARD_ROWS then 0 else |older + tail| - GUARD_ROWS;
  }

  /** One more restart keeps the budget if the guard counted fewer than the limit. */
  lemma RestartFits(audit: seq<Row>, cfg: Config, r: Row)
    requires WithinBudget(audit, cfg, GUARD_ROWS + 1) && 0 <= cfg.maxAttempts
    requires audit != [] ==> audit[|audit| - 1].ts <= r.ts
    requires IsRestart(r) ==>
      forall i :: 0 <= i <= |audit| && |audit| - i <= GUARD_ROWS && (i < |audit| ==> r.ts - audit[i].ts <= cfg.windowS)
        ==> Restarts(audit[i..]) < cfg.maxAttempts
    ensures WithinBudget(audit + [r], cfg, GUARD_ROWS + 1)
  {
    var a := audit + [r];
    forall i, j | 0 <= i < j <= |a| && j - i <= GUARD_ROWS + 1 && a[j - 1].ts - a[i].ts <= cfg.windowS
      ensures Restarts(a[i..j]) <= cfg.maxAttempts
    {
      if j <= |audit| {
        assert a[i..j] == audit[i..j];
      } else {
        assert a[i..j] == audit[i..] + [r];
        RestartsConcat(audit[i..], [r]);
        if !IsRestart(r) && i < |audit| { InformFits(audit, cfg, r, i); }
      }
    }
  }

  lemma InformFits(audit: seq<Row>, cfg: Config, r: Row, i: nat)
    requires WithinBudget(audit, cfg, GUARD_ROWS + 1) && i < |audit| && |audit| - i <= GUARD_ROWS
    requires audit[|audit| - 1].ts - audit[i].ts <= cfg.windowS
    ensures Restarts(audit[i..]) <= cfg.maxAttempts
  {
    assert audit[i..] == audit[i..|audit|];
  }

  lemma AuditInOrder(log: Log, clock: int, unit: string)
    requires Ordered(log, clock)
    ensures var audit := AuditOf(log.history, unit);
      && (forall i, j :: 0 <= i < j < |audit| ==> audit[i].ts <= audit[j].ts)
      && (forall i :: 0 <= i < |audit| ==> audit[i].ts <= clock)
  {
    SelectKeepsOrder(log.history, AutofixOf(unit));
    SelectMembers(log.history, AutofixOf(unit));
    var audit := AuditOf(log.history, unit);
    forall i | 0 <= i < |audit| ensures audit[i].ts <= clock { assert audit[i] in log.history; }
  }

  lemma RestartMeansUnder(cfg: Config, key: Key, recorded: nat, w: World)
    ensures var row := Verdict(cfg, key, recorded, w);
      && (row.Some? ==> row.value.kind == Autofix && row.value.unit == Some(key.unit))
      && (row.Some? && row.value.meta.action == Some(ActRestart) ==> recorded < cfg.maxAttempts)
  {
  }
}

/**
 The kept-well ledger: a fold over the event log into the days the machine has looked
 after itself and a tally of what it did. It is fed from three separately capped scans;
 what the caps can change is stated exactly.
 */
module Ledger {
  import opened Options
  import opened EventLog
  import Engine = AutofixEngine
  import Audits = AuditRows

  const WINDOW_DAYS := 30
  const SCAN_LIMIT := 1000

  /** The machine handed a problem back to the person. */
  predicate IsAttention(d: Draft) {
    match d.kind
    case Autofix => d.meta.action == Some(ActInform) || d.meta.outcome == Some(StillFailing)
    case Restart => d.meta.source == Some(Tray) || d.meta.source == Some(QuerySource)
    case _ => false
  }

  predicate IsHealed(d: Draft) {
    d.kind == Autofix && d.meta.action == Some(ActRestart) && d.meta.outcome == Some(Healthy)
  }

  datatype Headline = GettingStarted | NeedsAHand | Today | Streak(days: nat)

  datatype Ledger = Ledger(streakDays: nat, healthyNow: bool, since: Option<int>, autoRestarts: nat,
                           recoveries: nat, attention: nat, headline: Headline)

  // ---------------------------------------------------------------- the specification

  datatype Tallied = HealedRow | ClearedRow | AttentionRow | AutofixRow | RestartRow

  /** Does an in-window row count towards this tally? */
  predicate Counts(t: Tallied, from: int, r: Row) {
    from <= r.ts &&
    match t
    case HealedRow => IsHealed(r.ev)
    case ClearedRow => r.ev.kind == FailureCleared
    case AttentionRow => IsAttention(r.ev)
    case AutofixRow => r.ev.kind == Autofix
    case RestartRow => r.ev.kind == Restart
  }

  function Tally(rows: seq<Row>, t: Tallied, from: int): nat {
    if rows == [] then 0
    else Tally(rows[..|rows| - 1], t, from) + if Counts(t, from, rows[|rows| - 1]) then 1 else 0
  }

  /** The time of the latest attention row. */
  function LastAttention(rows: seq<Row>): Option<int> {
    if rows == [] then None
    else
      var m := LastAttention(rows[..|rows| - 1]);
      var last := rows[|rows| - 1];
      if IsAttention(last.ev) && (m.None? || m.value < last.ts) then Some(last.ts) else m
  }

  function DaysBetween(since: int, now: int): nat {
    var d := (now - since) / DAY_S;
    if d < 0 then 0 else d
  }

  /** When the current streak began. */
  function Since(rows: seq<Row>, now: int, failures: nat, earliest: Option<int>): Option<int> {
    if failures != 0 then Some(now)
    else if LastAttention(rows).Some? then LastAttention(rows)
    else if earliest.Some? then earliest
    else MinTs(rows)
  }

  function HeadlineOf(days: nat, healthy: bool, since: Option<int>): Headline {
    if since.None? then GettingStarted
    else if !healthy then NeedsAHand
    else if days == 0 then Today
    else Streak(days)
  }

  function Folded(since: Option<int>, now: int, failures: nat, healed: nat, cleared: nat, attention: nat): Ledger {
    var days := if failures != 0 || since.None? then 0 else DaysBetween(since.value, now);
    Ledger(days, failures == 0, since, healed, cleared, attention, HeadlineOf(days, failures == 0, since))
  }

  function LedgerOf(rows: seq<Row>, now: int, failures: nat, earliest: Option<int>, windowDays: int): Ledger {
    var from := now - windowDays * DAY_S;
    Folded(Since(rows, now, failures, earliest), now, failures,
           Tally(rows, HealedRow, from), Tally(rows, ClearedRow, from), Tally(rows, AttentionRow, from))
  }

  method Summarize(events: seq<Row>, now: int, failures: nat, earliest: Option<int>, windowDays: int)
    returns (l: Ledger)
    ensures l == LedgerOf(events, now, failures, earliest, windowDays)
  {
    var from := now - windowDays * DAY_S;
    var lastAttention, earliestSeen: Option<int> := None, None;
    var autoRestarts, recoveries, attention := 0, 0, 0;
    for i := 0 to |events|
      invariant lastAttention == LastAttention(events[..i]) && earliestSeen == MinTs(events[..i])
      invariant autoRestarts == Tally(events[..i], HealedRow, from)
      invariant recoveries == Tally(events[..i], ClearedRow, from)
      invariant attention == Tally(events[..i], AttentionRow, from)
    {
      var ev := events[i];
      assert events[..i + 1][..i] == events[..i];
      var isAttention := IsAttention(ev.ev);
      if earliestSeen.None? || ev.ts < earliestSeen.value { earliestSeen := Some(ev.ts); }
      if isAttention && (lastAttention.None? || lastAttention.value < ev.ts) { lastAttention := Some(ev.ts); }
      if ev.ts < from { continue; }
      if IsHealed(ev.ev) {
        autoRestarts := autoRestarts + 1;
      } else if ev.ev.kind == FailureCleared {
        recoveries := recoveries + 1;
      }
      if isAttention { attention := attention + 1; }
    }
    assert events[..|events|] == events;
    var floor := if earliest.Some? then earliest else earliestSeen;
    var since: Option<int>;
    if failures != 0 { since := Some(now); }
    else if lastAttention.Some? { since := lastAttention; }
    else { since := floor; }
    l := Folded(since, now, failures, autoRestarts, recoveries, attention);
  }

  // ---------------------------------------------------------------- order and honesty

  /** `m` is the time of the latest attention row, if there is one. */
  ghost predicate IsLatest(rows: seq<Row>, m: Option<int>) {
    && (forall r :: r in rows && IsAttention(r.ev) ==> m.Some? && r.ts <= m.value)
    && (m.Some? ==> exists r :: r in rows && IsAttention(r.ev) && r.ts == m.value)
  }

  lemma {:induction false} LastAttentionIsLatest(rows: seq<Row>)
    ensures IsLatest(rows, LastAttention(rows))
  {
    if rows != [] {
      var init, last := rows[..|rows| - 1], rows[|rows| - 1];
      LastAttentionIsLatest(init);
      assert rows == init + [last];
      if LastAttention(rows).Some? {
        if LastAttention(rows) == LastAttention(init) {
          var r :| r in init && IsAttention(r.ev) && r.ts == LastAttention(init).value;
          assert r in rows;
        } else {
          assert last in rows;
        }
      }
    }
  }

  lemma {:induction false} TallyConcat(a: seq<Row>, b: seq<Row>, t: Tallied, from: int)
    ensures Tally(a + b, t, from) == Tally(a, t, from) + Tally(b, t, from)
    decreases |b|
  {
    if b == [] {
      assert a + b == a;
    } else {
      TallyConcat(a, b[..|b| - 1], t, from);
      assert (a + b)[..|a + b| - 1] == a + b[..|b| - 1];
    }
  }

  lemma TallyRemove(a: seq<Row>, i: nat, t: Tallied, from: int)
    requires i < |a|
    ensures Tally(a, t, from) == Tally(a[..i] + a[i + 1..], t, from) + Tally([a[i]], t, from)
  {
    assert a == a[..i] + [a[i]] + a[i + 1..];
    TallyConcat(a[..i] + [a[i]], a[i + 1..], t, from);
    TallyConcat(a[..i], [a[i]], t, from);
    TallyConcat(a[..i], a[i + 1..], t, from);
  }

  lemma SameRest(a: seq<Row>, b: seq<Row>) returns (i: nat)
    requires a != [] && multiset(a) == multiset(b)
    ensures i < |b| && b[i] == a[|a| - 1]
    ensures multiset(a[..|a| - 1]) == multiset(b[..i] + b[i + 1..])
  {
    var n := |a| - 1;
    assert a == a[..n] + [a[n]];
    assert a[n] in multiset(b);
    i :| 0 <= i < |b| && b[i] == a[n];
    assert b == b[..i] + [b[i]] + b[i + 1..];
    assert multiset(a[..n]) == multiset(a) - multiset{a[n]};
  }

  lemma {:induction false} TallyPermutes(a: seq<Row>, b: seq<Row>, t: Tallied, from: int)
    requires multiset(a) == multiset(b)
    ensures Tally(a, t, from) == Tally(b, t, from)
    decreases |a|
  {
    if a == [] {
      assert |multiset(b)| == 0;
    } else {
      var n := |a| - 1;
      var i := SameRest(a, b);
      TallyPermutes(a[..n], b[..i] + b[i + 1..], t, from);
      TallyRemove(b, i, t, from);
    }
  }

  /** The ledger does not depend on the order of the rows. */
  lemma OrderDoesNotMatter(a: seq<Row>, b: seq<Row>, now: int, failures: nat, earliest: Option<int>, windowDays: int)
    requires multiset(a) == multiset(b)
    ensures LedgerOf(a, now, failures, earliest, windowDays) == LedgerOf(b, now, failures, earliest, windowDays)
  {
    var from := now - windowDays * DAY_S;
    TallyPermutes(a, b, HealedRow, from);
    TallyPermutes(a, b, ClearedRow, from);
    TallyPermutes(a, b, AttentionRow, from);
    assert forall r :: r in a <==> r in multiset(a);
    assert forall r :: r in b <==> r in multiset(b);
    SinceByMembers(a, b, now, failures, earliest);
  }

  lemma SinceByMembers(a: seq<Row>, b: seq<Row>, now: int, failures: nat, earliest: Option<int>)
    requires forall r :: r in a <==> r in b
    ensures Since(a, now, failures, earliest) == Since(b, now, failures, earliest)
  {
    LastAttentionIsLatest(a);
    LastAttentionIsLatest(b);
    MinTsMeaning(a);
    MinTsMeaning(b);
    if a != [] { assert a[0] in b; }
    if b != [] { assert b[0] in a; }
  }

  /** A streak of `n` days means that nothing is failing now and that the last time the
      machine needed the person is at least `n` days and less than `n + 1` days back (or,
      if it never did, that the first row is). */
  lemma HonestStreak(rows: seq<Row>, now: int, failures: nat, earliest: Option<int>, windowDays: int)
    ensures var l := LedgerOf(rows, now, failures, earliest, windowDays);
      && (0 < l.streakDays ==>
            && failures == 0
            && (forall r :: r in rows && IsAttention(r.ev) ==> r.ts <= now - l.streakDays * DAY_S)
            && l.since.Some? && now - (l.streakDays + 1) * DAY_S < l.since.value <= now - l.streakDays * DAY_S)
      && (failures == 0 && l.since.Some? && l.since.value <= now - DAY_S ==> 0 < l.streakDays)
  {
    LastAttentionIsLatest(rows);
  }

  // ---------------------------------------------------------------- what a ledger says

  lemma {:induction false} TallyCounts(rows: seq<Row>, t: Tallied, from: int)
    ensures Tally(rows, t, from) == |set i | 0 <= i < |rows| && Counts(t, from, rows[i])|
  {
    if rows != [] {
      var n := |rows| - 1;
      TallyCounts(rows[..n], t, from);
      var all := set i | 0 <= i < |rows| && Counts(t, from, rows[i]);
      assert (set i | 0 <= i < n && Counts(t, from, rows[..n][i])) == all - {n};
    }
  }

  ghost predicate LastNeeded(rows: seq<Row>, at: int) {
    && (exists r :: r in rows && IsAttention(r.ev) && r.ts == at)
    && (forall r :: r in rows && IsAttention(r.ev) ==> r.ts <= at)
  }

  ghost predicate FirstSeen(rows: seq<Row>, at: int) {
    (exists r :: r in rows && r.ts == at) && forall r :: r in rows ==> at <= r.ts
  }

  /** Where a streak starts: now, while something is failing; else with the last moment of attention;
      else with the store's first event, as it was given or else as it is among the rows. */
  ghost predicate StartsAt(rows: seq<Row>, now: int, failures: nat, earliest: Option<int>, since: Option<int>) {
    if failures != 0 then since == Some(now)
    else if exists r :: r in rows && IsAttention(r.ev) then since.Some? && LastNeeded(rows, since.value)
    else if earliest.Some? then since == earliest
    else if rows == [] then since == None
    else since.Some? && FirstSeen(rows, since.value)
  }

  /** Whole days of a streak, which has not begun if it starts later than now. */
  predicate WholeDays(since: int, now: int, days: nat) {
    if now < since then days == 0 else since + days * 86400 <= now < since + (days + 1) * 86400
  }

  lemma StartIsMeant(rows: seq<Row>, now: int, failures: nat, earliest: Option<int>)
    ensures StartsAt(rows, now, failures, earliest, Since(rows, now, failures, earliest))
  {
    LastAttentionIsLatest(rows);
    MinTsMeaning(rows);
  }

  lemma DaysAreWhole(since: int, now: int)
    ensures WholeDays(since, now, DaysBetween(since, now))
  {
  }

  /** Each member of a ledger, for all rows. */
  lemma LedgerMeans(rows: seq<Row>, now: int, failures: nat, earliest: Option<int>, windowDays: int)
    ensures var l := LedgerOf(rows, now, failures, earliest, windowDays); var from := now - windowDays * 86400;
      && (l.healthyNow <==> failures == 0)
      && StartsAt(rows, now, failures, earliest, l.since)
      && (if failures != 0 || l.since.None? then l.streakDays == 0 else WholeDays(l.since.value, now, l.streakDays))
      && l.autoRestarts == |set i | 0 <= i < |rows| && from <= rows[i].ts && IsHealed(rows[i].ev)|
      && l.recoveries == |set i | 0 <= i < |rows| && from <= rows[i].ts && rows[i].ev.kind == FailureCleared|
      && l.attention == |set i | 0 <= i < |rows| && from <= rows[i].ts && IsAttention(rows[i].ev)|
    ensures var l := LedgerOf(rows, now, failures, earliest, windowDays);
      && (l.headline == GettingStarted <==> l.since == None)
      && (l.headline == NeedsAHand <==> failures != 0)
      && (l.headline == Today <==> failures == 0 && l.since.Some? && l.streakDays == 0)
      && (l.headline.Streak? <==> 0 < l.streakDays)
      && (l.headline.Streak? ==> l.headline.days == l.streakDays)
  {
    var from := now - windowDays * DAY_S;
    StartIsMeant(rows, now, failures, earliest);
    var since := Since(rows, now, failures, earliest);
    if since.Some? { DaysAreWhole(since.value, now); }
    TallyCounts(rows, HealedRow, from);
    TallyCounts(rows, ClearedRow, from);
    TallyCounts(rows, AttentionRow, from);
    assert (set i | 0 <= i < |rows| && Counts(HealedRow, from, rows[i]))
        == set i | 0 <= i < |rows| && from <= rows[i].ts && IsHealed(rows[i].ev);
    assert (set i | 0 <= i < |rows| && Counts(ClearedRow, from, rows[i]))
        == set i | 0 <= i < |rows| && from <= rows[i].ts && rows[i].ev.kind == FailureCleared;
    assert (set i | 0 <= i < |rows| && Counts(AttentionRow, from, rows[i]))
        == set i | 0 <= i < |rows| && from <= rows[i].ts && IsAttention(rows[i].ev);
  }

  // ---------------------------------------------------------------- what the daemon writes

  function TrayRestart(k: Key, message: string): Draft {
    Draft(Restart, Some(k.unit), Some(k.scope), None, Words(message), NO_META.(source := Some(Tray)))
  }

  function QueryRestart(message: string): Draft {
    Draft(Restart, None, None, None, Words(message), NO_META.(source := Some(QuerySource)))
  }

  /** Every upkeep row is either a success of the machine or a moment of attention. */
  predicate Accounted(d: Draft) {
    d.kind == Autofix || d.kind == Restart ==> (IsHealed(d) <==> !IsAttention(d))
  }

  /** Nothing the machine or the person did is lost or counted twice: the in-window upkeep
      rows are exactly the silent restarts plus the attention moments. */
  lemma {:induction false} Conservation(rows: seq<Row>, from: int)
    requires forall r :: r in rows ==> Accounted(r.ev)
    ensures Tally(rows, AutofixRow, from) + Tally(rows, RestartRow, from)
         == Tally(rows, HealedRow, from) + Tally(rows, AttentionRow, from)
  {
    if rows != [] {
      Conservation(rows[..|rows| - 1], from);
      assert rows[|rows| - 1] in rows;
    }
  }

  /** What the rest of the daemon writes: the two restart commands, and rows of other kinds. */
  ghost predicate DaemonWrites(d: Draft) {
    || (d.kind != Autofix && d.kind != Restart)
    || (exists k: Key, message :: d == TrayRestart(k, message))
    || (exists message :: d == QueryRestart(message))
  }

  ghost predicate OthersWrite(e: Engine.Event) {
    match e
    case Other(Append(_, d)) => DaemonWrites(d)
    case Other(Expire(_, _)) => true
    case Handle(_, w) => forall s :: s in w.during && s.Append? ==> DaemonWrites(s.draft)
  }

  lemma WritersAreAccounted(cfg: Engine.Config, k: Key, recorded: nat, w: Engine.World, message: string)
    ensures Engine.Verdict(cfg, k, recorded, w).Some? ==> Accounted(Engine.Verdict(cfg, k, recorded, w).value)
    ensures Accounted(TrayRestart(k, message)) && Accounted(QueryRestart(message))
  {
  }

  /** Which of the rows are a success and which a moment of attention, by what happened: a restart
      that the engine tried and that was verified is a success, one that was not, a unit that it only
      reports, and a restart by a person are moments of attention, and nothing else is either. */
  lemma RowsAreTold(cfg: Engine.Config, k: Key, recorded: nat, w: Engine.World, message: string, d: Draft)
    ensures Audits.Tells(cfg, k, recorded, w, d) ==>
      && (IsHealed(d) <==> Audits.Tries(cfg, k, recorded, w) && w.result.Verified? && w.result.ok)
      && (IsAttention(d) <==> !Audits.Tries(cfg, k, recorded, w) || (w.result.Verified? && !w.result.ok))
    ensures IsAttention(TrayRestart(k, message)) && IsAttention(QueryRestart(message))
    ensures d.kind != Autofix && d.kind != Restart ==> !IsHealed(d) && !IsAttention(d)
  {
  }

  lemma DaemonIsAccounted(d: Draft)
    requires DaemonWrites(d)
    ensures Accounted(d)
  {
    if d.kind == Restart {
      if k: Key, message :| d == TrayRestart(k, message) {
        assert IsAttention(d);
      }
    }
  }

  lemma {:induction false} StepsKeepAccounts(log: Log, steps: seq<Step>)
    requires forall r :: r in log.rows ==> Accounted(r.ev)
    requires forall s :: s in steps && s.Append? ==> DaemonWrites(s.draft)
    ensures forall r :: r in AppliedAll(log, steps).rows ==> Accounted(r.ev)
    decreases |steps|
  {
    if steps != [] {
      assert steps[0] in steps;
      if steps[0].Append? { DaemonIsAccounted(steps[0].draft); }
      if steps[0].Expire? { SelectMembers(log.rows, SinceFilter(Cutoff(steps[0].at, steps[0].days))); }
      StepsKeepAccounts(Applied(log, steps[0]), steps[1..]);
    }
  }

  lemma {:induction false} RunsKeepAccounts(cfg: Engine.Config, events: seq<Engine.Event>)
    requires forall e :: e in events ==> OthersWrite(e)
    ensures forall r :: r in Engine.Execute(EMPTY_LOG, cfg, events).rows ==> Accounted(r.ev)
  {
    if events != [] {
      var init, last := events[..|events| - 1], events[|events| - 1];
      RunsKeepAccounts(cfg, init);
      assert last in events;
      var log := Engine.Execute(EMPTY_LOG, cfg, init);
      match last
      case Other(s) =>
        assert AppliedAll(log, [s]) == Applied(log, s);
        StepsKeepAccounts(log, [s]);
      case Handle(k, w) =>
        StepsKeepAccounts(log, w.during);
        WritersAreAccounted(cfg, k, Engine.Recorded(log.rows, cfg, k, w), w, "");
    }
  }

  /** Conservation on every log a run of the daemon can leave. */
  lemma ConservationOverRuns(cfg: Engine.Config, events: seq<Engine.Event>, from: int)
    requires forall e :: e in events ==> OthersWrite(e)
    ensures var rows := Engine.Execute(EMPTY_LOG, cfg, events).rows;
      Tally(rows, AutofixRow, from) + Tally(rows, RestartRow, from)
        == Tally(rows, HealedRow, from) + Tally(rows, AttentionRow, from)
  {
    RunsKeepAccounts(cfg, events);
    Conservation(Engine.Execute(EMPTY_LOG, cfg, events).rows, from);
  }

  // ---------------------------------------------------------------- the capped scans

  function KindFilter(k: Kind, since: Option<int>): Filter { Filter(None, Some(k), since, None) }

  function WindowStart(now: int): int { now - WINDOW_DAYS * DAY_S }

  function Listed(rows: seq<Row>, f: Filter): seq<Row> { NewestFirst(Select(rows, f)) }

  /** All the rows the three scans are after, were they not capped. */
  function Sought(rows: seq<Row>, now: int): (seq<Row>, seq<Row>, seq<Row>) {
    (Listed(rows, KindFilter(Autofix, None)), Listed(rows, KindFilter(Restart, None)),
     Listed(rows, KindFilter(FailureCleared, Some(WindowStart(now)))))
  }

  function Scanned(rows: seq<Row>, now: int): seq<Row> {
    var (a, r, c) := Sought(rows, now);
    Take(a, SCAN_LIMIT) + Take(r, SCAN_LIMIT) + Take(c, SCAN_LIMIT)
  }

  function Dropped(rows: seq<Row>, now: int): seq<Row> {
    var (a, r, c) := Sought(rows, now);
    Drop(a, SCAN_LIMIT) + Drop(r, SCAN_LIMIT) + Drop(c, SCAN_LIMIT)
  }

  /** The ledger the daemon serves, and the one over its whole store. */
  function KeptWell(rows: seq<Row>, now: int, failures: nat): Ledger {
    LedgerOf(Scanned(rows, now), now, failures, MinTs(rows), WINDOW_DAYS)
  }

  function WholeStore(rows: seq<Row>, now: int, failures: nat): Ledger {
    LedgerOf(rows, now, failures, MinTs(rows), WINDOW_DAYS)
  }

  /** The tallies that a ledger shows. */
  predicate Shown(t: Tallied) { t == HealedRow || t == ClearedRow || t == AttentionRow }

  /** A read lists its rows in another order. */
  lemma {:induction false} ListedPermutes(rows: seq<Row>)
    ensures multiset(NewestFirst(rows)) == multiset(rows)
  {
    if rows != [] {
      ListedPermutes(rows[1..]);
      InsertSortedMembers(rows[0], NewestFirst(rows[1..]));
      assert rows == [rows[0]] + rows[1..];
    }
  }

  lemma ListedLength(rows: seq<Row>)
    ensures |NewestFirst(rows)| == |rows|
  {
    ListedPermutes(rows);
    assert |multiset(NewestFirst(rows))| == |multiset(rows)|;
  }

  lemma TallyListed(rows: seq<Row>, t: Tallied, from: int)
    ensures Tally(NewestFirst(rows), t, from) == Tally(rows, t, from)
  {
    ListedPermutes(rows);
    TallyPermutes(NewestFirst(rows), rows, t, from);
  }

  function SoughtTally(rows: seq<Row>, now: int, t: Tallied): nat {
    Tally(Select(rows, KindFilter(Autofix, None)), t, WindowStart(now))
    + Tally(Select(rows, KindFilter(Restart, None)), t, WindowStart(now))
    + Tally(Select(rows, KindFilter(FailureCleared, Some(WindowStart(now)))), t, WindowStart(now))
  }

  lemma SelectTally(rows: seq<Row>, f: Filter, t: Tallied, from: int)
    requires rows != []
    ensures Tally(Select(rows, f), t, from)
         == Tally(Select(rows[1..], f), t, from) + if Matches(f, rows[0]) && Counts(t, from, rows[0]) then 1 else 0
  {
    TallyConcat(if Matches(f, rows[0]) then [rows[0]] else [], Select(rows[1..], f), t, from);
  }

  /** A row that counts is sought by exactly one of the scans. */
  lemma {:induction false} EveryCountedRowIsSought(rows: seq<Row>, now: int, t: Tallied)
    requires Shown(t)
    ensures Tally(rows, t, WindowStart(now)) == SoughtTally(rows, now, t)
  {
    if rows != [] {
      var from := WindowStart(now);
      EveryCountedRowIsSought(rows[1..], now, t);
      TallyFirst(rows, t, from);
      SelectTally(rows, KindFilter(Autofix, None), t, from);
      SelectTally(rows, KindFilter(Restart, None), t, from);
      SelectTally(rows, KindFilter(FailureCleared, Some(from)), t, from);
    }
  }

  lemma TallyFirst(rows: seq<Row>, t: Tallied, from: int)
    requires rows != []
    ensures Tally(rows, t, from) == Tally(rows[1..], t, from) + if Counts(t, from, rows[0]) then 1 else 0
  {
    TallyConcat([rows[0]], rows[1..], t, from);
    assert rows == [rows[0]] + rows[1..];
  }

  lemma TallySplit(s: seq<Row>, n: nat, t: Tallied, from: int)
    ensures Tally(s, t, from) == Tally(Take(s, n), t, from) + Tally(Drop(s, n), t, from)
  {
    assert s == Take(s, n) + Drop(s, n);
    TallyConcat(Take(s, n), Drop(s, n), t, from);
  }

  lemma TallyThree(a: seq<Row>, b: seq<Row>, c: seq<Row>, t: Tallied, from: int)
    ensures Tally(a + b + c, t, from) == Tally(a, t, from) + Tally(b, t, from) + Tally(c, t, from)
  {
    TallyConcat(a + b, c, t, from);
    TallyConcat(a, b, t, from);
  }

  /** What the caps take away from a tally is the tally of the dropped rows. */
  lemma ScanLosesDropped(rows: seq<Row>, now: int, t: Tallied)
    requires Shown(t)
    ensures var from := WindowStart(now);
      Tally(rows, t, from) == Tally(Scanned(rows, now), t, from) + Tally(Dropped(rows, now), t, from)
  {
    var from := WindowStart(now);
    var (a, r, c) := Sought(rows, now);
    EveryCountedRowIsSought(rows, now, t);
    TallyListed(Select(rows, KindFilter(Autofix, None)), t, from);
    TallyListed(Select(rows, KindFilter(Restart, None)), t, from);
    TallyListed(Select(rows, KindFilter(FailureCleared, Some(from))), t, from);
    TallySplit(a, SCAN_LIMIT, t, from);
    TallySplit(r, SCAN_LIMIT, t, from);
    TallySplit(c, SCAN_LIMIT, t, from);
    TallyThree(Take(a, SCAN_LIMIT), Take(r, SCAN_LIMIT), Take(c, SCAN_LIMIT), t, from);
    TallyThree(Drop(a, SCAN_LIMIT), Drop(r, SCAN_LIMIT), Drop(c, SCAN_LIMIT), t, from);
  }

  lemma ListedMembers(rows: seq<Row>)
    ensures forall x :: x in NewestFirst(rows) <==> x in rows
  {
    ListedPermutes(rows);
    forall x ensures x in NewestFirst(rows) <==> x in rows {
      assert x in multiset(NewestFirst(rows)) <==> x in multiset(rows);
    }
  }

  lemma ScanMembers(rows: seq<Row>, f: Filter, x: Row)
    ensures x in Listed(rows, f) <==> x in rows && Matches(f, x)
    ensures x in Listed(rows, f) <==> x in Take(Listed(rows, f), SCAN_LIMIT) || x in Drop(Listed(rows, f), SCAN_LIMIT)
  {
    SelectMembers(rows, f);
    ListedMembers(Select(rows, f));
    var all := Listed(rows, f);
    assert all == Take(all, SCAN_LIMIT) + Drop(all, SCAN_LIMIT);
  }

  lemma SoughtMembers(rows: seq<Row>, now: int, x: Row)
    ensures x in Scanned(rows, now) || x in Dropped(rows, now)
       <==> x in rows && (x.ev.kind == Autofix || x.ev.kind == Restart
                          || (x.ev.kind == FailureCleared && WindowStart(now) <= x.ts))
  {
    ScanMembers(rows, KindFilter(Autofix, None), x);
    ScanMembers(rows, KindFilter(Restart, None), x);
    ScanMembers(rows, KindFilter(FailureCleared, Some(WindowStart(now))), x);
  }

  lemma {:induction false} TallyZero(rows: seq<Row>, t: Tallied, from: int)
    ensures Tally(rows, t, from) == 0 <==> forall r :: r in rows ==> !Counts(t, from, r)
  {
    if rows != [] {
      var init, last := rows[..|rows| - 1], rows[|rows| - 1];
      TallyZero(init, t, from);
      assert rows == init + [last];
      assert forall r :: r in rows <==> r in init || r == last;
      assert (forall r :: r in rows ==> !Counts(t, from, r))
        <==> !Counts(t, from, last) && forall r :: r in init ==> !Counts(t, from, r);
    }
  }

  /** An attention moment at least as late as `d` is scanned, or no row of the store is
      earlier than `d`. */
  ghost predicate Covered(rows: seq<Row>, now: int, d: Row) {
    || (exists a :: a in Scanned(rows, now) && IsAttention(a.ev) && d.ts <= a.ts)
    || (forall r :: r in rows ==> d.ts <= r.ts)
  }

  /** Every row that the caps drop counts in no tally, and, if nothing is failing, is no
      attention moment that is not covered. */
  ghost predicate DroppedAreSilent(rows: seq<Row>, now: int, failures: nat) {
    forall d :: d in Dropped(rows, now) ==>
      && (forall t :: Shown(t) ==> !Counts(t, WindowStart(now), d))
      && (failures == 0 && IsAttention(d.ev) ==> Covered(rows, now, d))
  }

  /** A covered row is one that the served start of the streak is not earlier than. */
  lemma CoveredMeaning(rows: seq<Row>, now: int, d: Row)
    requires d in rows
    ensures var since := Since(Scanned(rows, now), now, 0, MinTs(rows));
      since.Some? && (Covered(rows, now, d) <==> d.ts <= since.value)
  {
    var kept := Scanned(rows, now);
    LastAttentionIsLatest(kept);
    MinTsMeaning(rows);
    if LastAttention(kept).Some? {
      var a :| a in kept && IsAttention(a.ev) && a.ts == LastAttention(kept).value;
      SoughtMembers(rows, now, a);
    }
  }

  /** Splitting off rows keeps the start of the streak exactly when none of them is a later
      attention moment than it. `floor` is no later than any row. */
  lemma SinceSplit(rows: seq<Row>, kept: seq<Row>, dropped: seq<Row>, now: int, floor: int)
    requires forall x :: x in rows && IsAttention(x.ev) ==> x in kept || x in dropped
    requires forall x :: x in kept || x in dropped ==> x in rows
    requires forall x :: x in rows ==> floor <= x.ts
    ensures var since := Since(kept, now, 0, Some(floor));
      && (Since(rows, now, 0, Some(floor)) == since
          <==> forall d :: d in dropped && IsAttention(d.ev) ==> d.ts <= since.value)
  {
    LastAttentionIsLatest(rows);
    LastAttentionIsLatest(kept);
    var since := Since(kept, now, 0, Some(floor));
    var m := LastAttention(rows);
    if m.Some? {
      var r :| r in rows && IsAttention(r.ev) && r.ts == m.value;
      assert r in kept || r in dropped;
      assert since.value <= m.value;
    }
  }

  lemma SinceIsExact(rows: seq<Row>, now: int)
    ensures (Since(rows, now, 0, MinTs(rows)) == Since(Scanned(rows, now), now, 0, MinTs(rows))
             <==> forall d :: d in Dropped(rows, now) && IsAttention(d.ev) ==> Covered(rows, now, d))
  {
    var kept, dropped := Scanned(rows, now), Dropped(rows, now);
    forall x ensures x in kept || x in dropped ==> x in rows
             ensures x in rows && IsAttention(x.ev) ==> x in kept || x in dropped {
      SoughtMembers(rows, now, x);
    }
    MinTsMeaning(rows);
    if rows == [] {
      assert kept == [] && dropped == [];
    } else {
      SinceSplit(rows, kept, dropped, now, MinTs(rows).value);
      forall d | d in dropped ensures Covered(rows, now, d) <==> d.ts <= Since(kept, now, 0, MinTs(rows)).value {
        CoveredMeaning(rows, now, d);
      }
    }
  }

  /** The daemon's ledger is the ledger of the whole store exactly when no row that the
      caps drop counts in the window and, if nothing is failing, none of them is an
      attention moment later than the streak's start. */
  lemma KeptWellIsExact(rows: seq<Row>, now: int, failures: nat)
    ensures KeptWell(rows, now, failures) == WholeStore(rows, now, failures)
       <==> DroppedAreSilent(rows, now, failures)
  {
    var from := WindowStart(now);
    TallyIsExact(rows, now, HealedRow);
    TallyIsExact(rows, now, ClearedRow);
    TallyIsExact(rows, now, AttentionRow);
    SinceIsExact(rows, now);
    if KeptWell(rows, now, failures) == WholeStore(rows, now, failures) {
      forall d, t | d in Dropped(rows, now) && Shown(t) ensures !Counts(t, from, d) {}
    }
  }

  lemma TallyIsExact(rows: seq<Row>, now: int, t: Tallied)
    requires Shown(t)
    ensures (Tally(rows, t, WindowStart(now)) == Tally(Scanned(rows, now), t, WindowStart(now))
             <==> forall d :: d in Dropped(rows, now) ==> !Counts(t, WindowStart(now), d))
  {
    ScanLosesDropped(rows, now, t);
    TallyZero(Dropped(rows, now), t, WindowStart(now));
  }

  /** In particular, whenever each scan has room for all it is after. */
  lemma KeptWellWithinCaps(rows: seq<Row>, now: int, failures: nat)
    requires |Select(rows, KindFilter(Autofix, None))| <= 1000
    requires |Select(rows, KindFilter(Restart, None))| <= 1000
    requires |Select(rows, KindFilter(FailureCleared, Some(WindowStart(now))))| <= 1000
    ensures KeptWell(rows, now, failures) == WholeStore(rows, now, failures)
  {
    ListedLength(Select(rows, KindFilter(Autofix, None)));
    ListedLength(Select(rows, KindFilter(Restart, None)));
    ListedLength(Select(rows, KindFilter(FailureCleared, Some(WindowStart(now)))));
    assert Dropped(rows, now) == [];
    KeptWellIsExact(rows, now, failures);
  }

  const OVERFLOW := SCAN_LIMIT + 1

  /** One attention row more than a scan returns, all of now. */
  function OverflowStore(now: int): seq<Row> {
    seq(OVERFLOW, i requires 0 <= i => Row(i + 1, now, TOLD))
  }

  const TOLD := Draft(Autofix, Some("u"), None, None, Words(""), NO_META.(action := Some(ActInform)))

  lemma {:induction false} TallyAll(rows: seq<Row>, t: Tallied, from: int)
    ensures Tally(rows, t, from) <= |rows|
    ensures (forall r :: r in rows ==> Counts(t, from, r)) ==> Tally(rows, t, from) == |rows|
  {
    if rows != [] {
      TallyAll(rows[..|rows| - 1], t, from);
      assert forall r :: r in rows[..|rows| - 1] ==> r in rows;
    }
  }

  lemma OverflowScanned(rows: seq<Row>, now: int)
    requires |rows| >= SCAN_LIMIT && forall r :: r in rows ==> r.ev.kind == Autofix
    ensures |Scanned(rows, now)| == SCAN_LIMIT && forall r :: r in Scanned(rows, now) ==> r in rows
  {
    SelectAll(rows, KindFilter(Autofix, None));
    SelectNone(rows, KindFilter(Restart, None));
    SelectNone(rows, KindFilter(FailureCleared, Some(WindowStart(now))));
    ListedLength(rows);
    ListedMembers(rows);
    assert NewestFirst([]) == [];
    assert Scanned(rows, now) == Take(NewestFirst(rows), SCAN_LIMIT);
  }

  /** The caps do show: here the served ledger misses one attention moment. */
  lemma CapsShow(now: int, failures: nat)
    ensures KeptWell(OverflowStore(now), now, failures).attention == 1000
    ensures WholeStore(OverflowStore(now), now, failures).attention == 1001
  {
    var rows, from := OverflowStore(now), WindowStart(now);
    forall r | r in rows ensures r.ev.kind == Autofix && Counts(AttentionRow, from, r) {}
    OverflowScanned(rows, now);
    TallyAll(rows, AttentionRow, from);
    TallyAll(Scanned(rows, now), AttentionRow, from);
  }

  // ---------------------------------------------------------------- four reads, not one

  function ScanOf(rows: seq<Row>, f: Filter): seq<Row> { Take(Listed(rows, f), SCAN_LIMIT) }

  /** The ledger when each of the four reads sees a table of its own. */
  function ServedFrom(a: seq<Row>, r: seq<Row>, c: seq<Row>, e: seq<Row>, now: int, failures: nat): Ledger {
    LedgerOf(ScanOf(a, KindFilter(Autofix, None)) + ScanOf(r, KindFilter(Restart, None))
             + ScanOf(c, KindFilter(FailureCleared, Some(WindowStart(now)))),
             now, failures, MinTs(e), WINDOW_DAYS)
  }

  /** Rows of one kind only. */
  ghost predicate AllOfKind(rows: seq<Row>, k: Kind) { forall x :: x in rows ==> x.ev.kind == k }

  lemma ScanIsOfKind(rows: seq<Row>, k: Kind, since: Option<int>)
    ensures AllOfKind(ScanOf(rows, KindFilter(k, since)), k)
  {
    SelectMembers(rows, KindFilter(k, since));
    ListedMembers(Select(rows, KindFilter(k, since)));
    var all := Listed(rows, KindFilter(k, since));
    forall x | x in Take(all, SCAN_LIMIT) ensures x in all {}
  }

  /** Which rows can count in a tally, by their kind. */
  predicate CountsKind(t: Tallied, k: Kind) {
    match t
    case HealedRow => k == Autofix
    case ClearedRow => k == FailureCleared
    case AttentionRow => k == Autofix || k == Restart
    case AutofixRow => k == Autofix
    case RestartRow => k == Restart
  }

  lemma TallyOfKind(rows: seq<Row>, k: Kind, t: Tallied, from: int)
    requires AllOfKind(rows, k) && !CountsKind(t, k)
    ensures Tally(rows, t, from) == 0
  {
    TallyZero(rows, t, from);
  }

  /** What steps between the reads can change: each tally is that of the table its own read saw,
      so a ledger can hold a row that came between two reads and lack one that came with it,
      but it counts no row twice. */
  lemma ServedTallies(a: seq<Row>, r: seq<Row>, c: seq<Row>, e: seq<Row>, now: int, failures: nat)
    ensures var l := ServedFrom(a, r, c, e, now, failures); var from := now - 30 * 86400;
      && l.autoRestarts == Tally(ScanOf(a, KindFilter(Autofix, None)), HealedRow, from)
      && l.recoveries == Tally(ScanOf(c, KindFilter(FailureCleared, Some(from))), ClearedRow, from)
      && l.attention == Tally(ScanOf(a, KindFilter(Autofix, None)), AttentionRow, from)
                        + Tally(ScanOf(r, KindFilter(Restart, None)), AttentionRow, from)
      && StartsAt(ScanOf(a, KindFilter(Autofix, None)) + ScanOf(r, KindFilter(Restart, None))
                  + ScanOf(c, KindFilter(FailureCleared, Some(from))), now, failures, MinTs(e), l.since)
  {
    StartIsMeant(ScanOf(a, KindFilter(Autofix, None)) + ScanOf(r, KindFilter(Restart, None))
                 + ScanOf(c, KindFilter(FailureCleared, Some(WindowStart(now)))), now, failures, MinTs(e));
    var from := WindowStart(now);
    var x, y := ScanOf(a, KindFilter(Autofix, None)), ScanOf(r, KindFilter(Restart, None));
    var z := ScanOf(c, KindFilter(FailureCleared, Some(from)));
    ScanIsOfKind(a, Autofix, None);
    ScanIsOfKind(r, Restart, None);
    ScanIsOfKind(c, FailureCleared, Some(from));
    TallyThree(x, y, z, HealedRow, from);
    TallyThree(x, y, z, ClearedRow, from);
    TallyThree(x, y, z, AttentionRow, from);
    TallyOfKind(y, Restart, HealedRow, from);
    TallyOfKind(z, FailureCleared, HealedRow, from);
    TallyOfKind(x, Autofix, ClearedRow, from);
    TallyOfKind(y, Restart, ClearedRow, from);
    TallyOfKind(z, FailureCleared, AttentionRow, from);
  }

  /** Nothing that the reads are after came or went between two tables. */
  ghost predicate Undisturbed(a: seq<Row>, b: seq<Row>, now: int) {
    && Select(a, KindFilter(Autofix, None)) == Select(b, KindFilter(Autofix, None))
    && Select(a, KindFilter(Restart, None)) == Select(b, KindFilter(Restart, None))
    && Select(a, KindFilter(FailureCleared, Some(WindowStart(now))))
       == Select(b, KindFilter(FailureCleared, Some(WindowStart(now))))
    && MinTs(a) == MinTs(b)
  }

  /** Then the ledger is that of one state. */
  lemma UndisturbedIsOneState(a: seq<Row>, r: seq<Row>, c: seq<Row>, e: seq<Row>, now: int, failures: nat)
    requires Undisturbed(a, r, now) && Undisturbed(a, c, now) && Undisturbed(a, e, now)
    ensures ServedFrom(a, r, c, e, now, failures) == KeptWell(a, now, failures)
  {
  }

  predicate IsScanned(k: Kind) { k == Autofix || k == Restart || k == FailureCleared }

  /** So it is when rows of other kinds are appended, none earlier than the first of the table. */
  lemma {:induction false} OtherKindsDoNotDisturb(log: Log, steps: seq<Step>, now: int)
    requires MinTs(log.rows).Some?
    requires forall s :: s in steps ==> s.Append? && MinTs(log.rows).value <= s.at && !IsScanned(s.draft.kind)
    ensures Undisturbed(log.rows, AppliedAll(log, steps).rows, now)
    decreases |steps|
  {
    if steps != [] {
      assert steps[0] in steps;
      OtherRowDoesNotDisturb(log.rows, Row(log.nextId, steps[0].at, steps[0].draft), now);
      OtherKindsDoNotDisturb(Applied(log, steps[0]), steps[1..], now);
    }
  }

  lemma OtherRowDoesNotDisturb(rows: seq<Row>, r: Row, now: int)
    requires MinTs(rows).Some? && MinTs(rows).value <= r.ts && !IsScanned(r.ev.kind)
    ensures Undisturbed(rows, rows + [r], now)
  {
    SelectConcat(rows, [r], KindFilter(Autofix, None));
    SelectConcat(rows, [r], KindFilter(Restart, None));
    SelectConcat(rows, [r], KindFilter(FailureCleared, Some(WindowStart(now))));
    assert (rows + [r])[..|rows|] == rows;
  }
}

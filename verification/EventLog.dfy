/**
 The persistent event timeline: an append-only table of what the daemon observed
 and did, read back newest first through filters and a row cap, and trimmed by age.
 Timestamps are whole seconds.
 */
module EventLog {
  import opened Options
  import opened Sequences

  datatype Kind =
    | FailureObserved | FailureCleared | Explanation | Restart | JournalSnapshot
    | MonitorEvent | Ask | ActionDone | Autofix | OtherKind(name: string)

  datatype Act = ActRestart | ActInform | OtherAct(name: string)
  datatype Outcome = Healthy | StillFailing | OtherOutcome(name: string)
  datatype Source = Tray | QuerySource | OtherSource(name: string)

  /** The metadata fields some reader looks at; every one of them may be absent. */
  datatype Meta = Meta(action: Option<Act>, outcome: Option<Outcome>, source: Option<Source>,
                       attempt: Option<nat>, recorded: Option<nat>, systemd: Option<nat>)

  const NO_META := Meta(None, None, None, None, None, None)

  datatype Scope = System | User

  /** A unit name in one of the two service managers. */
  datatype Key = Key(unit: string, scope: Scope)

  datatype Severity = Info | Warning | OtherSeverity(name: string)

  /** Event text: the fixed phrases of the daemon about a unit, or anything else. */
  datatype Text =
    | KeepsFailing(unit: string) | StoppedWorking(unit: string)
    | Failed(unit: string) | Recovered(unit: string) | Words(words: string)

  /** What a caller hands to `append`; the store adds the id and the time. */
  datatype Draft = Draft(kind: Kind, unit: Option<string>, scope: Option<Scope>,
                         severity: Option<Severity>, text: Text, meta: Meta)

  datatype Row = Row(id: nat, ts: int, ev: Draft)

  /** The `WHERE` clause of a read: each present field is one conjunct. */
  datatype Filter = Filter(unit: Option<string>, kind: Option<Kind>,
                           since: Option<int>, beforeId: Option<int>)

  const MAX_ROWS := 1000

  predicate Matches(f: Filter, r: Row) {
    && (f.unit.Some? ==> r.ev.unit == f.unit)
    && (f.kind.Some? ==> r.ev.kind == f.kind.value)
    && (f.since.Some? ==> f.since.value <= r.ts)
    && (f.beforeId.Some? ==> r.id < f.beforeId.value)
  }

  function Select(rows: seq<Row>, f: Filter): seq<Row> {
    if rows == [] then []
    else (if Matches(f, rows[0]) then [rows[0]] else []) + Select(rows[1..], f)
  }

  /** `ORDER BY ts DESC, id DESC`: `a` is listed before `b`. */
  predicate Newer(a: Row, b: Row) {
    b.ts < a.ts || (a.ts == b.ts && b.id < a.id)
  }

  function InsertSorted(r: Row, s: seq<Row>): seq<Row> {
    if s == [] || Newer(r, s[0]) then [r] + s else [s[0]] + InsertSorted(r, s[1..])
  }

  function NewestFirst(rows: seq<Row>): seq<Row> {
    if rows == [] then [] else InsertSorted(rows[0], NewestFirst(rows[1..]))
  }

  function Clamp(limit: int): nat {
    if limit < 1 then 1 else if limit > MAX_ROWS then MAX_ROWS else limit
  }

  function Take<T>(s: seq<T>, n: nat): seq<T> { if n < |s| then s[..n] else s }
  function Drop<T>(s: seq<T>, n: nat): seq<T> { if n < |s| then s[n..] else [] }

  /** The rows a read returns. */
  function Newest(rows: seq<Row>, f: Filter, limit: int): seq<Row> {
    Take(NewestFirst(Select(rows, f)), Clamp(limit))
  }

  /** `MIN(ts)` over the table. */
  function MinTs(rows: seq<Row>): Option<int> {
    if rows == [] then None
    else
      var m := MinTs(rows[..|rows| - 1]);
      var last := rows[|rows| - 1];
      if m.None? || last.ts < m.value then Some(last.ts) else m
  }

  lemma {:induction false} MinTsMeaning(rows: seq<Row>)
    ensures MinTs(rows).None? <==> rows == []
    ensures MinTs(rows).Some? ==> forall r :: r in rows ==> MinTs(rows).value <= r.ts
    ensures MinTs(rows).Some? ==> exists r :: r in rows && r.ts == MinTs(rows).value
  {
    if rows != [] {
      var init, last := rows[..|rows| - 1], rows[|rows| - 1];
      MinTsMeaning(init);
      assert rows == init + [last];
      if MinTs(rows) == MinTs(init) {
        var r :| r in init && r.ts == MinTs(init).value;
        assert r in rows;
      } else {
        assert last in rows;
      }
    }
  }

  // ---------------------------------------------------------------- the log as a value

  /** `rows` is the table, `history` every row ever inserted, pruned or not. */
  datatype Log = Log(rows: seq<Row>, nextId: nat, history: seq<Row>)

  const EMPTY_LOG := Log([], 1, [])

  function Inserted(log: Log, at: int, d: Draft): Log {
    var r := Row(log.nextId, at, d);
    Log(log.rows + [r], log.nextId + 1, log.history + [r])
  }

  function SinceFilter(before: int): Filter { Filter(None, None, Some(before), None) }

  function Pruned(log: Log, before: int): Log {
    log.(rows := Select(log.rows, SinceFilter(before)))
  }

  /** Ids grow along the table and the clock never steps back along it. */
  ghost predicate Chronological(rows: seq<Row>) {
    forall i, j :: 0 <= i < j < |rows| ==> rows[i].id < rows[j].id && rows[i].ts <= rows[j].ts
  }

  ghost predicate UniqueIds(rows: seq<Row>) {
    forall i, j :: 0 <= i < j < |rows| ==> rows[i].id != rows[j].id
  }

  // ---------------------------------------------------------------- steps others take

  /** What the rest of the daemon may do to the store while a client waits. */
  datatype Step =
    | Append(at: int, draft: Draft)
    | Expire(at: int, days: nat)  // the retention pass, for a retention of `days` days

  const DAY_S := 86400

  function Cutoff(at: int, days: nat): int { at - days * DAY_S }

  function Applied(log: Log, s: Step): Log {
    match s
    case Append(at, d) => Inserted(log, at, d)
    case Expire(at, days) => Pruned(log, Cutoff(at, days))
  }

  function AppliedAll(log: Log, steps: seq<Step>): Log
    decreases |steps|
  {
    if steps == [] then log else AppliedAll(Applied(log, steps[0]), steps[1..])
  }

  // ---------------------------------------------------------------- the store

  class EventStore {
    var rows: seq<Row>
    var nextId: nat
    var closed: bool
    ghost var history: seq<Row>

    ghost function View(): Log
      reads this
    {
      Log(rows, nextId, history)
    }

    constructor ()
      ensures View() == EMPTY_LOG && !closed
    {
      rows, nextId, closed, history := [], 1, false, [];
    }

    method Append(at: int, d: Draft) returns (id: nat)
      modifies this
      ensures closed == old(closed)
      ensures closed ==> id == 0 && View() == old(View())
      ensures !closed ==> id == old(nextId) && View() == Inserted(old(View()), at, d)
    {
      if closed { return 0; }
      var row := Row(nextId, at, d);
      id := nextId;
      rows, nextId, history := rows + [row], nextId + 1, history + [row];
    }

    method Recent(limit: int, f: Filter) returns (out: seq<Row>)
      ensures out == if closed then [] else Newest(rows, f, limit)
    {
      if closed { return []; }
      out := Newest(rows, f, limit);
    }

    method Earliest() returns (ts: Option<int>)
      ensures ts == if closed then None else MinTs(rows)
    {
      if closed { return None; }
      ts := None;
      for i := 0 to |rows|
        invariant ts == MinTs(rows[..i])
      {
        assert rows[..i + 1][..i] == rows[..i];
        if ts.None? || rows[i].ts < ts.value { ts := Some(rows[i].ts); }
      }
      assert rows[..|rows|] == rows;
    }

    method PruneOlder(before: int) returns (removed: nat)
      modifies this
      ensures closed == old(closed)
      ensures closed ==> removed == 0 && View() == old(View())
      ensures !closed ==> View() == Pruned(old(View()), before)
      ensures !closed ==> removed == |old(rows)| - |rows|
    {
      if closed { return 0; }
      var kept := Select(rows, SinceFilter(before));
      SelectIsShorter(rows, SinceFilter(before));
      removed := |rows| - |kept|;
      rows := kept;
    }

    method Close()
      modifies this
      ensures closed && View() == old(View())
    {
      closed := true;
    }

    /** Everything the rest of the daemon does while one client is suspended at an await. */
    method Interleave(steps: seq<Step>)
      modifies this
      ensures closed == old(closed)
      ensures View() == if closed then old(View()) else AppliedAll(old(View()), steps)
    {
      var i := 0;
      while i < |steps|
        invariant 0 <= i <= |steps| && closed == old(closed)
        invariant closed ==> View() == old(View())
        invariant !closed ==> AppliedAll(View(), steps[i..]) == AppliedAll(old(View()), steps)
      {
        match steps[i] {
          case Append(at, d) => var _ := Append(at, d);
          case Expire(at, days) => var _ := PruneOlder(Cutoff(at, days));
        }
        assert steps[i..][1..] == steps[i + 1..];
        i := i + 1;
      }
    }
  }

  // ---------------------------------------------------------------- facts about reads

  lemma SelectIsShorter(rows: seq<Row>, f: Filter)
    ensures |Select(rows, f)| <= |rows|
  {
  }

  lemma {:induction false} SelectMembers(rows: seq<Row>, f: Filter)
    ensures forall r :: r in Select(rows, f) <==> r in rows && Matches(f, r)
  {
    if rows != [] {
      SelectMembers(rows[1..], f);
      assert rows == [rows[0]] + rows[1..];
    }
  }

  lemma {:induction false} SelectConcat(a: seq<Row>, b: seq<Row>, f: Filter)
    ensures Select(a + b, f) == Select(a, f) + Select(b, f)
  {
    if a == [] {
      assert a + b == b;
    } else {
      Uncons(a, b);
      SelectConcat(a[1..], b, f);
      Assoc(if Matches(f, a[0]) then [a[0]] else [], Select(a[1..], f), Select(b, f));
    }
  }

  lemma {:induction false} SelectNone(rows: seq<Row>, f: Filter)
    requires forall r :: r in rows ==> !Matches(f, r)
    ensures Select(rows, f) == []
  {
    if rows != [] { SelectNone(rows[1..], f); }
  }

  lemma {:induction false} SelectAll(rows: seq<Row>, f: Filter)
    requires forall r :: r in rows ==> Matches(f, r)
    ensures Select(rows, f) == rows
  {
    if rows != [] { SelectAll(rows[1..], f); }
  }

  /** Selecting twice is selecting once by the stronger filter. */
  lemma {:induction false} SelectTwice(rows: seq<Row>, f: Filter, g: Filter, both: Filter)
    requires forall r :: r in rows ==> (Matches(both, r) <==> Matches(f, r) && Matches(g, r))
    ensures Select(Select(rows, f), g) == Select(rows, both)
  {
    if rows != [] {
      SelectTwice(rows[1..], f, g, both);
      assert rows[0] in rows;
      var first := if Matches(f, rows[0]) then [rows[0]] else [];
      SelectConcat(first, Select(rows[1..], f), g);
      assert Select(first, g) == if Matches(both, rows[0]) then [rows[0]] else [];
    }
  }

  lemma {:induction false} SelectKeepsOrder(rows: seq<Row>, f: Filter)
    requires Chronological(rows)
    ensures Chronological(Select(rows, f))
  {
    if rows != [] {
      var rest := Select(rows[1..], f);
      SelectKeepsOrder(rows[1..], f);
      forall k | 0 <= k < |rest| ensures rows[0].id < rest[k].id && rows[0].ts <= rest[k].ts {
        SelectedFrom(rows, f, k);
      }
    }
  }

  lemma SelectedFrom(rows: seq<Row>, f: Filter, k: nat)
    requires rows != [] && k < |Select(rows[1..], f)|
    ensures exists m :: 0 < m < |rows| && rows[m] == Select(rows[1..], f)[k]
  {
    SelectMembers(rows[1..], f);
    var r := Select(rows[1..], f)[k];
    assert r in rows[1..];
    var m :| 0 <= m < |rows[1..]| && rows[1..][m] == r;
    assert rows[m + 1] == r;
  }

  lemma {:induction false} SelectKeepsIds(rows: seq<Row>, f: Filter)
    requires UniqueIds(rows)
    ensures UniqueIds(Select(rows, f))
  {
    if rows != [] {
      var rest := Select(rows[1..], f);
      SelectKeepsIds(rows[1..], f);
      forall k | 0 <= k < |rest| ensures rows[0].id != rest[k].id {
        SelectedFrom(rows, f, k);
      }
    }
  }

  lemma {:induction false} InsertSortedIsSorted(r: Row, s: seq<Row>)
    requires forall i, j :: 0 <= i < j < |s| ==> Newer(s[i], s[j])
    requires forall x :: x in s ==> x.id != r.id
    ensures var t := InsertSorted(r, s); forall i, j :: 0 <= i < j < |t| ==> Newer(t[i], t[j])
  {
    if s != [] && !Newer(r, s[0]) {
      InsertSortedIsSorted(r, s[1..]);
      InsertSortedMembers(r, s[1..]);
      var t := InsertSorted(r, s[1..]);
      forall k | 0 <= k < |t| ensures Newer(s[0], t[k]) {
        assert t[k] in t;
        assert s[0] in s;
      }
    }
  }

  lemma {:induction false} InsertSortedMembers(r: Row, s: seq<Row>)
    ensures multiset(InsertSorted(r, s)) == multiset(s) + multiset{r}
    ensures forall x :: x in InsertSorted(r, s) <==> x == r || x in s
  {
    if s != [] && !Newer(r, s[0]) {
      InsertSortedMembers(r, s[1..]);
      assert s == [s[0]] + s[1..];
    }
  }

  /** The order of a read is the `ORDER BY` order, and it loses and invents no row. */
  lemma {:induction false} NewestFirstIsSorted(rows: seq<Row>)
    requires UniqueIds(rows)
    ensures multiset(NewestFirst(rows)) == multiset(rows)
    ensures forall r :: r in NewestFirst(rows) <==> r in rows
    ensures |NewestFirst(rows)| == |rows|
    ensures var s := NewestFirst(rows); forall i, j :: 0 <= i < j < |s| ==> Newer(s[i], s[j])
  {
    if rows != [] {
      NewestFirstIsSorted(rows[1..]);
      assert rows == [rows[0]] + rows[1..];
      InsertSortedIsSorted(rows[0], NewestFirst(rows[1..]));
      InsertSortedMembers(rows[0], NewestFirst(rows[1..]));
      assert |NewestFirst(rows)| == |multiset(NewestFirst(rows))|;
    }
  }

  /** A read returns matching rows only, newest first, at most the clamped limit of them;
      a matching row that is left out is older than every row returned, and one is left
      out only when the page is full. */
  lemma ReadMeaning(rows: seq<Row>, f: Filter, limit: int)
    requires UniqueIds(rows)
    ensures var out := Newest(rows, f, limit);
      && |out| == (if |Select(rows, f)| < Clamp(limit) then |Select(rows, f)| else Clamp(limit))
      && (forall i, j :: 0 <= i < j < |out| ==> Newer(out[i], out[j]))
      && (forall r :: r in out ==> r in rows && Matches(f, r))
      && (forall r, o :: r in rows && Matches(f, r) && r !in out && o in out ==> Newer(o, r))
  {
    var all := NewestFirst(Select(rows, f));
    SelectKeepsIds(rows, f);
    SelectMembers(rows, f);
    NewestFirstIsSorted(Select(rows, f));
  }

  /** The same of the fields of the rows: what is returned has the unit and the kind asked for, is not
      older than asked for and comes before the id given; and of such rows none is left out while
      there is room. */
  lemma ReadByFields(rows: seq<Row>, f: Filter, limit: int)
    requires UniqueIds(rows)
    ensures forall r :: r in Newest(rows, f, limit) ==>
      && r in rows && (f.unit.Some? ==> r.ev.unit == f.unit) && (f.kind.Some? ==> r.ev.kind == f.kind.value)
      && (f.since.Some? ==> f.since.value <= r.ts) && (f.beforeId.Some? ==> r.id < f.beforeId.value)
    ensures forall r ::
      (&& r in rows && r !in Newest(rows, f, limit)
       && (f.unit.Some? ==> r.ev.unit == f.unit) && (f.kind.Some? ==> r.ev.kind == f.kind.value)
       && (f.since.Some? ==> f.since.value <= r.ts) && (f.beforeId.Some? ==> r.id < f.beforeId.value))
      ==> |Newest(rows, f, limit)| == if limit < 1 then 1 else if limit > 1000 then 1000 else limit
    ensures |Newest(rows, f, limit)| <= 1000 && (1 <= limit ==> |Newest(rows, f, limit)| <= limit)
    ensures var out := Newest(rows, f, limit);
      forall i, j :: 0 <= i < j < |out| ==> out[j].ts <= out[i].ts && (out[j].ts == out[i].ts ==> out[j].id < out[i].id)
  {
    ReadMeaning(rows, f, limit);
    SelectMembers(rows, f);
    SelectKeepsIds(rows, f);
    NewestFirstIsSorted(Select(rows, f));
    var all := NewestFirst(Select(rows, f));
    forall r | r in rows && Matches(f, r) && r !in Newest(rows, f, limit) ensures Clamp(limit) < |all| {
      assert r in all;
    }
  }

  function Older(rows: seq<Row>, before: int): nat {
    if rows == [] then 0
    else Older(rows[..|rows| - 1], before) + if rows[|rows| - 1].ts < before then 1 else 0
  }

  lemma {:induction false} OlderGo(rows: seq<Row>, before: int)
    ensures |rows| - |Select(rows, SinceFilter(before))| == Older(rows, before)
  {
    if rows != [] {
      var n := |rows| - 1;
      OlderGo(rows[..n], before);
      SelectConcat(rows[..n], [rows[n]], SinceFilter(before));
      assert rows[..n] + [rows[n]] == rows;
    }
  }

  /** Deleting by age keeps exactly the rows that are not older than the cutoff, and as many go as
      are older. */
  lemma PruneMeaning(log: Log, before: int)
    ensures forall r :: r in Pruned(log, before).rows <==> r in log.rows && before <= r.ts
    ensures Pruned(log, before).nextId == log.nextId && Pruned(log, before).history == log.history
    ensures |log.rows| - |Pruned(log, before).rows| == Older(log.rows, before)
  {
    SelectMembers(log.rows, SinceFilter(before));
    OlderGo(log.rows, before);
  }

  /** A retention pass keeps what is not older than that many days. */
  lemma ExpireMeaning(log: Log, at: int, days: nat)
    ensures forall r :: r in Applied(log, Expire(at, days)).rows <==> r in log.rows && at - r.ts <= days * 86400
  {
    PruneMeaning(log, Cutoff(at, days));
  }

  function Reverse<T>(s: seq<T>): (r: seq<T>)
    ensures |r| == |s|
    ensures forall i :: 0 <= i < |s| ==> r[i] == s[|s| - 1 - i]
  {
    if s == [] then [] else Reverse(s[1..]) + [s[0]]
  }

  lemma {:induction false} InsertOldest(r: Row, s: seq<Row>)
    requires forall x :: x in s ==> Newer(x, r)
    ensures InsertSorted(r, s) == s + [r]
  {
    if s != [] {
      assert s[0] in s;
      InsertOldest(r, s[1..]);
    }
  }

  /** While the clock does not step back, the newest-first order is the insertion order
      reversed. */
  lemma {:induction false} NewestFirstReverses(rows: seq<Row>)
    requires Chronological(rows)
    ensures NewestFirst(rows) == Reverse(rows)
  {
    if rows != [] {
      NewestFirstReverses(rows[1..]);
      var back := Reverse(rows[1..]);
      forall x | x in back ensures Newer(x, rows[0]) {
        var k :| 0 <= k < |back| && back[k] == x;
        assert x == rows[1..][|back| - 1 - k];
      }
      InsertOldest(rows[0], back);
    }
  }

  // ---------------------------------------------------------------- facts about the log

  /** The table against everything ever inserted: an id order with a clock that never went
      back, of which pruning has removed a prefix. `kept` is the length of that prefix. */
  ghost predicate Suffix(log: Log, kept: nat) {
    kept <= |log.history| && log.rows == log.history[kept..]
  }

  ghost predicate Ordered(log: Log, clock: int) {
    && Chronological(log.history)
    && (forall r :: r in log.history ==> r.id < log.nextId && r.ts <= clock)
  }

  lemma InsertOrdered(log: Log, clock: int, at: int, d: Draft, kept: nat)
    requires Ordered(log, clock) && clock <= at && Suffix(log, kept)
    ensures Ordered(Inserted(log, at, d), at) && Suffix(Inserted(log, at, d), kept)
  {
    var h := log.history;
    var log' := Inserted(log, at, d);
    forall i, j | 0 <= i < j < |log'.history|
      ensures log'.history[i].id < log'.history[j].id && log'.history[i].ts <= log'.history[j].ts
    {
      assert h[i] in h;
    }
    assert log'.history[kept..] == log.history[kept..] + [log'.history[|h|]];
  }

  /** On an ordered table, pruning by age cuts a prefix. */
  lemma {:induction false} PruneCutsPrefix(rows: seq<Row>, before: int) returns (cut: nat)
    requires Chronological(rows)
    ensures cut <= |rows| && Select(rows, SinceFilter(before)) == rows[cut..]
    ensures forall i :: 0 <= i < cut ==> rows[i].ts < before
    ensures forall i :: cut <= i < |rows| ==> before <= rows[i].ts
  {
    if rows == [] {
      cut := 0;
    } else if before <= rows[0].ts {
      cut := 0;
      SelectAll(rows, SinceFilter(before));
    } else {
      var c := PruneCutsPrefix(rows[1..], before);
      cut := c + 1;
    }
  }

  lemma PruneOrdered(log: Log, clock: int, cutoff: int, kept: nat) returns (kept': nat)
    requires Ordered(log, clock) && Suffix(log, kept)
    ensures Ordered(Pruned(log, cutoff), clock) && Suffix(Pruned(log, cutoff), kept')
    ensures kept <= kept' <= |log.history|
    ensures forall i :: kept <= i < kept' ==> log.history[i].ts < cutoff
  {
    var cut := PruneCutsPrefix(log.rows, cutoff);
    kept' := kept + cut;
    forall i | kept <= i < kept' ensures log.history[i].ts < cutoff {
      assert log.history[i] == log.rows[i - kept];
    }
  }
}

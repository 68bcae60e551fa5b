/**
 The failure-transition recorder: it turns successive snapshots of the failed units
 into rows that say only what changed.
 */
module Timeline {
  import opened Options
  import opened EventLog
  import Paging
  import Ledger

  predicate IsTransition(d: Draft) { d.kind == FailureObserved || d.kind == FailureCleared }

  predicate About(d: Draft, k: Key) { d.unit == Some(k.unit) && d.scope == Some(k.scope) }

  function ObservedDraft(k: Key, description: string): Draft {
    Draft(FailureObserved, Some(k.unit), Some(k.scope), Some(Warning),
          if description != "" then Words(description) else Failed(k.unit), NO_META)
  }

  function ClearedDraft(k: Key): Draft {
    Draft(FailureCleared, Some(k.unit), Some(k.scope), Some(Info), Recovered(k.unit), NO_META)
  }

  // ---------------------------------------------------------------- reading the log back

  /** The failed units that a log describes. */
  function Replay(h: seq<Row>): set<Key> {
    if h == [] then {}
    else
      var d := h[|h| - 1].ev;
      var before := Replay(h[..|h| - 1]);
      if !IsTransition(d) || d.unit.None? || d.scope.None? then before
      else if d.kind == FailureObserved then before + {Key(d.unit.value, d.scope.value)}
      else before - {Key(d.unit.value, d.scope.value)}
  }

  /** Every transition row changes the state it is read in. */
  predicate Toggles(h: seq<Row>) {
    h == [] ||
    var d := h[|h| - 1].ev;
    && Toggles(h[..|h| - 1])
    && (IsTransition(d) ==>
          && d.unit.Some? && d.scope.Some?
          && (d.kind == FailureObserved <==> Key(d.unit.value, d.scope.value) !in Replay(h[..|h| - 1])))
  }

  function Transitions(h: seq<Row>): nat {
    if h == [] then 0
    else Transitions(h[..|h| - 1]) + if IsTransition(h[|h| - 1].ev) then 1 else 0
  }

  /** The transition rows of one unit in order: `true` where it was observed failing. */
  function Flips(h: seq<Row>, k: Key): seq<bool> {
    if h == [] then []
    else
      var d := h[|h| - 1].ev;
      Flips(h[..|h| - 1], k) + if IsTransition(d) && About(d, k) then [d.kind == FailureObserved] else []
  }

  predicate Alternating(flips: seq<bool>) {
    forall i :: 0 <= i < |flips| ==> (flips[i] <==> i % 2 == 0)
  }

  ghost predicate EachAlternates(h: seq<Row>) { forall k: Key :: Alternating(Flips(h, k)) }

  // ---------------------------------------------------------------- the service

  /** What else reaches the store between two writes of this service, which is the only
      writer of transition rows. */
  ghost predicate Elsewhere(steps: seq<Step>) {
    forall s :: s in steps && s.Append? ==> !IsTransition(s.draft)
  }

  /** What a transition row says of a unit: that it is among the failed ones, with its description, or that
      it is not. */
  ghost predicate Says(d: Draft, current: map<Key, string>) {
    && d.unit.Some? && d.scope.Some?
    && var k := Key(d.unit.value, d.scope.value);
      if d.kind == FailureObserved then
        && k in current && d.severity == Some(Warning)
        && d.text == if current[k] == "" then Failed(k.unit) else Words(current[k])
      else d.kind == FailureCleared && k !in current && d.severity == Some(Info) && d.text == Recovered(k.unit)
  }

  /** From `h` to `t` rows were added only, and each transition row among them says what the snapshot does. */
  ghost predicate Told(h: seq<Row>, t: seq<Row>, current: map<Key, string>) {
    h <= t && forall i :: |h| <= i < |t| && IsTransition(t[i].ev) ==> Says(t[i].ev, current)
  }

  /** A call: what reaches the store before it, the snapshot, and for its n-th write the clock
      and what reaches the store meanwhile. */
  datatype Snapshot = Snapshot(before: seq<Step>, current: map<Key, string>, world: nat -> (int, seq<Step>))

  ghost predicate OnlyWriter(snap: Snapshot) { Elsewhere(snap.before) && forall n :: Elsewhere(snap.world(n).1) }

  class TimelineService {
    const store: EventStore
    var seenFailures: set<Key>

    constructor (store: EventStore)
      ensures this.store == store && seenFailures == {}
      ensures store.history == [] ==> Faithful()
    {
      this.store, seenFailures := store, {};
    }

    /** The log describes the last snapshot and holds no row that changes nothing. */
    ghost predicate Faithful()
      reads this, store
    {
      Replay(store.history) == seenFailures && Toggles(store.history)
    }

    method Page(limit: int, unit: Option<string>, beforeId: Option<int>) returns (page: Paging.Page)
      ensures page == if store.closed then Paging.Page([], None)
                      else Paging.PageOf(store.rows, limit, unit, beforeId)
    {
      var bounded := Clamp(limit);
      var rows := store.Recent(bounded + 1, Paging.PageFilter(unit, beforeId));
      var events := if bounded < |rows| then rows[..bounded] else rows;
      page := Paging.Page(events, if bounded < |rows| && events != [] then Some(events[|events| - 1].id) else None);
    }

    /** Three separate capped scans, the store's first time stamp, and the live failures. The
        reads are asked for at once and served one after the other; `between(i)` is what reaches
        the store after the `i`-th. */
    method KeptWell(now: int, failures: nat, between: nat -> seq<Step>) returns (l: Ledger.Ledger)
      modifies store
      ensures var first := old(store.View());
        var second := AppliedAll(first, between(0));
        var third := AppliedAll(second, between(1));
        var fourth := AppliedAll(third, between(2));
        && (!store.closed ==> store.View() == fourth)
        && l == if store.closed then Ledger.ServedFrom([], [], [], [], now, failures)
                else Ledger.ServedFrom(first.rows, second.rows, third.rows, fourth.rows, now, failures)
    {
      var windowStart := now - Ledger.WINDOW_DAYS * DAY_S;
      var autofix := store.Recent(Ledger.SCAN_LIMIT, Filter(None, Some(Autofix), None, None));
      store.Interleave(between(0));
      var restarts := store.Recent(Ledger.SCAN_LIMIT, Filter(None, Some(Restart), None, None));
      store.Interleave(between(1));
      var cleared := store.Recent(Ledger.SCAN_LIMIT, Filter(None, Some(FailureCleared), Some(windowStart), None));
      store.Interleave(between(2));
      var earliest := store.Earliest();
      l := Ledger.Summarize(autofix + restarts + cleared, now, failures, earliest, Ledger.WINDOW_DAYS);
    }

    /** `world(n)` is the clock of the n-th write and what reaches the store before it. */
    method RecordFailureTransitions(current: map<Key, string>, world: nat -> (int, seq<Step>))
      requires !store.closed
      requires forall n :: Elsewhere(world(n).1)
      modifies this, store
      ensures !store.closed && seenFailures == current.Keys
      ensures Replay(store.history)
           == old(Replay(store.history)) + (current.Keys - old(seenFailures)) - (old(seenFailures) - current.Keys)
      ensures Transitions(store.history)
           == old(Transitions(store.history)) + |current.Keys - old(seenFailures)| + |old(seenFailures) - current.Keys|
      ensures Told(old(store.history), store.history, current)
      ensures old(Faithful()) ==> Faithful()
      ensures (Replay(store.history) == current.Keys
               <==> old(Replay(store.history)) - old(seenFailures) <= current.Keys
                    && current.Keys * old(seenFailures) <= old(Replay(store.history)))
    {
      var keys := current.Keys;
      ghost var was := Replay(store.history);
      CatchesUp(was, seenFailures, keys);
      var n := ReportObserved(keys - seenFailures, current, world, 0);
      n := ReportCleared(seenFailures - keys, current, world, n);
      seenFailures := keys;
    }

    /** Any run of completed calls, with anything else of the daemon between and within them.
        From an empty store on, the log replays to the last snapshot, and the rows of every
        unit alternate, starting with an observed failure. */
    method RecordRun(snapshots: seq<Snapshot>)
      requires !store.closed && Faithful()
      requires forall i :: 0 <= i < |snapshots| ==> OnlyWriter(snapshots[i])
      modifies this, store
      ensures !store.closed && Faithful() && EachAlternates(store.history)
      ensures Replay(store.history)
           == if snapshots == [] then old(Replay(store.history)) else snapshots[|snapshots| - 1].current.Keys
    {
      for i := 0 to |snapshots|
        invariant !store.closed && Faithful()
        invariant seenFailures == if i == 0 then old(seenFailures) else snapshots[i - 1].current.Keys
      {
        var snap := snapshots[i];
        assert OnlyWriter(snap);
        ElsewhereKeeps(store.View(), snap.before);
        store.Interleave(snap.before);
        RecordFailureTransitions(snap.current, snap.world);
      }
      forall k ensures Alternating(Flips(store.history, k)) { ReplayIsParity(store.history, k); }
    }

    /** One row for each key, in whatever order the set yields them. */
    method ReportObserved(keys: set<Key>, current: map<Key, string>, world: nat -> (int, seq<Step>), from: nat)
      returns (n: nat)
      requires !store.closed && keys <= current.Keys
      requires forall n :: Elsewhere(world(n).1)
      modifies store
      ensures !store.closed
      ensures Told(old(store.history), store.history, current)
      ensures Replay(store.history) == old(Replay(store.history)) + keys
      ensures Transitions(store.history) == old(Transitions(store.history)) + |keys|
      ensures old(Toggles(store.history) && keys !! Replay(store.history)) ==> Toggles(store.history)
    {
      ghost var was, count := Replay(store.history), Transitions(store.history);
      ghost var sound := Toggles(store.history) && keys !! was;
      var todo, done := keys, {};
      n := from;
      while todo != {}
        invariant !store.closed && todo + done == keys && todo !! done
        invariant Told(old(store.history), store.history, current)
        invariant Replay(store.history) == was + done
        invariant Transitions(store.history) == count + |done|
        invariant sound ==> Toggles(store.history)
        decreases todo
      {
        var k :| k in todo;
        Write(world(n), ObservedDraft(k, current[k]), current);
        MoveOne(todo, done, was, k);
        n, todo, done := n + 1, todo - {k}, done + {k};
      }
    }

    /** The same for the recovered units. */
    method ReportCleared(keys: set<Key>, ghost current: map<Key, string>, world: nat -> (int, seq<Step>), from: nat)
      returns (n: nat)
      requires !store.closed && keys !! current.Keys
      requires forall n :: Elsewhere(world(n).1)
      modifies store
      ensures !store.closed
      ensures Told(old(store.history), store.history, current)
      ensures Replay(store.history) == old(Replay(store.history)) - keys
      ensures Transitions(store.history) == old(Transitions(store.history)) + |keys|
      ensures old(Toggles(store.history) && keys <= Replay(store.history)) ==> Toggles(store.history)
    {
      ghost var was, count := Replay(store.history), Transitions(store.history);
      ghost var sound := Toggles(store.history) && keys <= was;
      var todo, done := keys, {};
      n := from;
      while todo != {}
        invariant !store.closed && todo + done == keys && todo !! done
        invariant Told(old(store.history), store.history, current)
        invariant Replay(store.history) == was - done
        invariant Transitions(store.history) == count + |done|
        invariant sound ==> Toggles(store.history)
        decreases todo
      {
        var k :| k in todo;
        Write(world(n), ClearedDraft(k), current);
        MoveOne(todo, done, was, k);
        n, todo, done := n + 1, todo - {k}, done + {k};
      }
    }

    method Write(w: (int, seq<Step>), d: Draft, ghost current: map<Key, string>)
      requires !store.closed && Elsewhere(w.1) && Says(d, current)
      requires IsTransition(d) && d.unit.Some? && d.scope.Some?
      modifies store
      ensures !store.closed && |store.history| > 0 && store.history[|store.history| - 1].ts == w.0
      ensures Told(old(store.history), store.history, current)
      ensures Replay(store.history) == if d.kind == FailureObserved
        then old(Replay(store.history)) + {Key(d.unit.value, d.scope.value)}
        else old(Replay(store.history)) - {Key(d.unit.value, d.scope.value)}
      ensures Transitions(store.history) == old(Transitions(store.history)) + 1
      ensures var flips := d.kind == FailureObserved
                           <==> Key(d.unit.value, d.scope.value) !in old(Replay(store.history));
        Toggles(store.history) <==> old(Toggles(store.history)) && flips
    {
      ElsewhereKeeps(store.View(), w.1);
      ElsewhereTells(store.View(), w.1, current);
      store.Interleave(w.1);
      ghost var h := store.history;
      ToldMore(old(store.history), h, Row(store.nextId, w.0, d), current);
      var _ := store.Append(w.0, d);
      assert store.history[..|store.history| - 1] == h;
    }
  }

  // ---------------------------------------------------------------- facts

  /** A replayed state `was` that moves as the snapshots do meets the new one if and only if
      it differed from the old one only where the new one does. */
  lemma CatchesUp(was: set<Key>, seen: set<Key>, keys: set<Key>)
    ensures was + (keys - seen) - (seen - keys) == keys <==> was - seen <= keys && keys * seen <= was
    ensures was == seen ==> was + (keys - seen) - (seen - keys) == keys
    ensures was == seen ==> keys - seen !! was && seen - keys <= was + (keys - seen)
  {
    var after := was + (keys - seen) - (seen - keys);
    if was - seen <= keys && keys * seen <= was {
      forall k ensures k in after <==> k in keys {}
    }
    if after == keys {
      forall k | k in was - seen ensures k in keys { assert k in after; }
      forall k | k in keys * seen ensures k in was { assert k in after; }
    }
  }

  lemma MoveOne(todo: set<Key>, done: set<Key>, was: set<Key>, k: Key)
    requires k in todo && todo !! done
    ensures (todo - {k}) + (done + {k}) == todo + done && todo - {k} !! done + {k}
    ensures |done + {k}| == |done| + 1 && todo - {k} < todo
    ensures was + done + {k} == was + (done + {k}) && was - done - {k} == was - (done + {k})
  {
  }

  lemma {:induction false} ElsewhereKeeps(log: Log, steps: seq<Step>)
    requires Elsewhere(steps)
    ensures var h, h' := log.history, AppliedAll(log, steps).history;
      Replay(h') == Replay(h) && Transitions(h') == Transitions(h) && (Toggles(h') <==> Toggles(h))
    decreases |steps|
  {
    if steps != [] {
      assert steps[0] in steps;
      var next := Applied(log, steps[0]);
      if steps[0].Append? { assert next.history[..|next.history| - 1] == log.history; }
      ElsewhereKeeps(next, steps[1..]);
    }
  }

  lemma ToldMore(h: seq<Row>, t: seq<Row>, r: Row, current: map<Key, string>)
    requires Told(h, t, current) && Says(r.ev, current)
    ensures Told(h, t + [r], current)
  {
  }

  lemma {:induction false} ElsewhereTells(log: Log, steps: seq<Step>, current: map<Key, string>)
    requires Elsewhere(steps)
    ensures Told(log.history, AppliedAll(log, steps).history, current)
    decreases |steps|
  {
    if steps != [] {
      assert steps[0] in steps;
      ElsewhereTells(Applied(log, steps[0]), steps[1..], current);
    }
  }

  /** The state of a unit is the parity of its transition rows. */
  lemma {:induction false} ReplayIsParity(h: seq<Row>, k: Key)
    requires Toggles(h)
    ensures Alternating(Flips(h, k)) && (k in Replay(h) <==> |Flips(h, k)| % 2 == 1)
  {
    if h != [] {
      ReplayIsParity(h[..|h| - 1], k);
    }
  }

  /** Rows that alternate for every unit, starting with an observed failure, are never idle. */
  lemma {:induction false} AlternationToggles(h: seq<Row>)
    requires forall r :: r in h && IsTransition(r.ev) ==> r.ev.unit.Some? && r.ev.scope.Some?
    requires EachAlternates(h)
    ensures Toggles(h)
  {
    if h != [] {
      var init, d := h[..|h| - 1], h[|h| - 1].ev;
      forall k ensures Alternating(Flips(init, k)) {
        var flips := Flips(h, k);
        assert forall i :: 0 <= i < |Flips(init, k)| ==> Flips(init, k)[i] == flips[i];
      }
      AlternationToggles(init);
      assert h[|h| - 1] in h;
      if IsTransition(d) {
        var k := Key(d.unit.value, d.scope.value);
        ReplayIsParity(init, k);
        assert Flips(h, k)[|Flips(init, k)|] == (d.kind == FailureObserved);
      }
    }
  }

  /** A log holds no idle transition row exactly when the rows of every unit alternate,
      starting with an observed failure. */
  lemma TogglesIsAlternation(h: seq<Row>)
    requires forall r :: r in h && IsTransition(r.ev) ==> r.ev.unit.Some? && r.ev.scope.Some?
    ensures Toggles(h) <==> EachAlternates(h)
  {
    if Toggles(h) {
      forall k ensures Alternating(Flips(h, k)) { ReplayIsParity(h, k); }
    }
    if EachAlternates(h) { AlternationToggles(h); }
  }

  // ---------------------------------------------------------------- after a restart

  /** A recorder that starts over a log which still shows a unit failing, and first sees nothing
      fail, leaves the log as it was: it goes on showing the failure. */
  method RestartOverOldLog(k: Key, at: int) returns (service: TimelineService)
    ensures fresh(service) && service.seenFailures == {} && Replay(service.store.history) == {k}
  {
    var store := new EventStore();
    var _ := store.Append(at, ObservedDraft(k, ""));
    assert store.history == [Row(1, at, ObservedDraft(k, ""))];
    assert store.history[..0] == [];
    service := new TimelineService(store);
    service.RecordFailureTransitions(map[], n => (at, []));
  }
}

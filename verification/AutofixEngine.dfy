/**
 The self-healing engine: it samples the failed units, acts once per failure episode,
 and guards against restart loops by reading its own audit rows back from the store.
 */
module AutofixEngine {
  import opened Options
  import opened Sequences
  import opened EventLog

  const GUARD_ROWS := 50

  datatype Config = Config(enable: bool, system: bool, maxAttempts: int, windowS: int)

  datatype Decision = DoSkip | DoInform | DoRestart

  /** A restart is verified either way, or the check after it raises. */
  datatype RestartResult = Verified(ok: bool, message: string) | Raised

  /** All the world decides while one unit is handled: the clock at the read and at the
      write, systemd's own restart count, what else reaches the store, and the restart. */
  datatype World = World(readAt: int, systemd: nat, during: seq<Step>, result: RestartResult,
                         writeAt: int)

  function Decide(scope: Scope, prior: int, cfg: Config): Decision {
    if !cfg.enable then DoSkip
    else if scope == System && !cfg.system then DoInform
    else if prior >= cfg.maxAttempts then DoInform
    else DoRestart
  }

  predicate IsRestart(r: Row) { r.ev.meta.action == Some(ActRestart) }

  function Restarts(rows: seq<Row>): nat {
    if rows == [] then 0 else (if IsRestart(rows[0]) then 1 else 0) + Restarts(rows[1..])
  }

  function AutofixOf(unit: string): Filter { Filter(Some(unit), Some(Autofix), None, None) }

  function GuardFilter(unit: string, since: int): Filter {
    Filter(Some(unit), Some(Autofix), Some(since), None)
  }

  /** The audit rows the loop guard gets to see: of this unit name, in either scope. */
  function GuardRows(rows: seq<Row>, unit: string, since: int): seq<Row> {
    Newest(rows, GuardFilter(unit, since), GUARD_ROWS)
  }

  function Max(a: int, b: int): int { if a < b then b else a }

  function InformDraft(key: Key, recorded: nat, systemd: nat): Draft {
    Draft(Autofix, Some(key.unit), Some(key.scope), Some(Warning),
          if Max(recorded, systemd) != 0 then KeepsFailing(key.unit) else StoppedWorking(key.unit),
          Meta(Some(ActInform), None, None, None, Some(recorded), Some(systemd)))
  }

  function RestartDraft(key: Key, ok: bool, message: string, attempt: nat): Draft {
    Draft(Autofix, Some(key.unit), Some(key.scope), Some(if ok then Info else Warning), Words(message),
          Meta(Some(ActRestart), Some(if ok then Healthy else StillFailing), None,
               Some(attempt), None, None))
  }

  function Recorded(rows: seq<Row>, cfg: Config, key: Key, w: World): nat {
    Restarts(GuardRows(rows, key.unit, w.readAt - cfg.windowS))
  }

  /** The audit row that handling a unit leaves, given the restarts the guard counted. */
  function Verdict(cfg: Config, key: Key, recorded: nat, w: World): Option<Draft> {
    var attempts := Max(recorded, w.systemd);
    match Decide(key.scope, attempts, cfg)
    case DoSkip => None
    case DoInform => Some(InformDraft(key, recorded, w.systemd))
    case DoRestart =>
      if w.result.Raised? then None
      else Some(RestartDraft(key, w.result.ok, w.result.message, attempts + 1))
  }

  function Reported(log: Log, at: int, row: Option<Draft>): Log {
    if row.None? then log else Inserted(log, at, row.value)
  }

  /** What handling one failed unit does to the log. */
  function HandledLog(log: Log, cfg: Config, key: Key, w: World): Log {
    Reported(AppliedAll(log, w.during), w.writeAt,
             Verdict(cfg, key, Recorded(log.rows, cfg, key, w), w))
  }

  // ---------------------------------------------------------------- one tick

  /** The keys of the sample, each once, in the order they are first listed. */
  function Distinct(sample: seq<Key>): seq<Key> {
    if sample == [] then []
    else
      var d := Distinct(sample[..|sample| - 1]);
      if sample[|sample| - 1] in d then d else d + [sample[|sample| - 1]]
  }

  ghost predicate NoRepeats(keys: seq<Key>) {
    forall i, j :: 0 <= i < j < |keys| ==> keys[i] != keys[j]
  }

  function KeySet(sample: seq<Key>): set<Key> { set k | k in sample }

  /** The keys not yet acted on in their current episode. */
  function Fresh(keys: seq<Key>, seen: set<Key>): seq<Key> {
    if keys == [] then []
    else
      var d := Fresh(keys[..|keys| - 1], seen);
      if keys[|keys| - 1] in seen then d else d + [keys[|keys| - 1]]
  }

  datatype Event = Other(step: Step) | Handle(key: Key, world: World)

  function Executed(log: Log, cfg: Config, e: Event): Log {
    match e
    case Other(s) => Applied(log, s)
    case Handle(key, w) => HandledLog(log, cfg, key, w)
  }

  function Execute(log: Log, cfg: Config, events: seq<Event>): Log {
    if events == [] then log
    else Executed(Execute(log, cfg, events[..|events| - 1]), cfg, events[|events| - 1])
  }

  function HandleEach(keys: seq<Key>, world: Key -> World): (es: seq<Event>)
    ensures |es| == |keys|
  {
    seq(|keys|, i requires 0 <= i < |keys| => Handle(keys[i], world(keys[i])))
  }

  function Others(steps: seq<Step>): (es: seq<Event>)
    ensures |es| == |steps|
  {
    seq(|steps|, i requires 0 <= i < |steps| => Other(steps[i]))
  }

  /** One turn of the poll loop: what reached the store since the last one, and then the
      sample, or nothing when listing the failed units raised. */
  datatype Tick = Tick(before: seq<Step>, sample: Option<seq<Key>>, world: Key -> World)

  function SeenAfter(seed: set<Key>, ticks: seq<Tick>): set<Key> {
    if ticks == [] then seed
    else if ticks[|ticks| - 1].sample.Some? then KeySet(ticks[|ticks| - 1].sample.value)
    else SeenAfter(seed, ticks[..|ticks| - 1])
  }

  function TickKeys(seed: set<Key>, ticks: seq<Tick>, i: nat): seq<Key> {
    if i >= |ticks| || ticks[i].sample.None? then []
    else Fresh(Distinct(ticks[i].sample.value), SeenAfter(seed, ticks[..i]))
  }

  /** The units handled over a run of ticks, in order. */
  function HandledOver(seed: set<Key>, ticks: seq<Tick>): seq<Key> {
    if ticks == [] then []
    else HandledOver(seed, ticks[..|ticks| - 1]) + TickKeys(seed, ticks, |ticks| - 1)
  }

  /** The same run as a sequence of store events. */
  function RunEvents(seed: set<Key>, ticks: seq<Tick>): seq<Event> {
    if ticks == [] then []
    else
      var t := ticks[|ticks| - 1];
      RunEvents(seed, ticks[..|ticks| - 1]) + Others(t.before)
      + HandleEach(TickKeys(seed, ticks, |ticks| - 1), t.world)
  }

  /** The ticks at which `k` is sampled and was not in the last sample that succeeded. */
  ghost function RisingEdges(k: Key, seed: set<Key>, ticks: seq<Tick>): set<nat> {
    set i: nat | i < |ticks| && ticks[i].sample.Some? && k in ticks[i].sample.value
                 && k !in SeenAfter(seed, ticks[..i])
  }

  // ---------------------------------------------------------------- the engine's steps

  /** `handled` lists the units acted on so far; the engine itself keeps only `seen`. */
  datatype EngineState = EngineState(seen: set<Key>, handled: seq<Key>, log: Log)

  function Attended(st: EngineState, cfg: Config, key: Key, w: World): EngineState {
    if key in st.seen then st
    else EngineState(st.seen + {key}, st.handled + [key], HandledLog(st.log, cfg, key, w))
  }

  function Sweep(st: EngineState, cfg: Config, keys: seq<Key>, world: Key -> World): EngineState {
    if keys == [] then st
    else
      var key := keys[|keys| - 1];
      Attended(Sweep(st, cfg, keys[..|keys| - 1], world), cfg, key, world(key))
  }

  function TickOnce(st: EngineState, cfg: Config, sample: seq<Key>, world: Key -> World): EngineState {
    Sweep(st.(seen := st.seen * KeySet(sample)), cfg, Distinct(sample), world)
  }

  function Turn(st: EngineState, cfg: Config, t: Tick): EngineState {
    var waited := st.(log := AppliedAll(st.log, t.before));
    if t.sample.None? then waited else TickOnce(waited, cfg, t.sample.value, t.world)
  }

  function Turns(st: EngineState, cfg: Config, ticks: seq<Tick>): EngineState {
    if ticks == [] then st else Turn(Turns(st, cfg, ticks[..|ticks| - 1]), cfg, ticks[|ticks| - 1])
  }

  // ---------------------------------------------------------------- the engine

  /** The daemon stops the engine before it closes the store. */
  class AutofixEngine {
    const cfg: Config
    const store: EventStore
    var seen: set<Key>
    ghost var handled: seq<Key>

    ghost function State(): EngineState
      reads this, store
    {
      EngineState(seen, handled, store.View())
    }

    constructor (cfg: Config, store: EventStore)
      ensures this.cfg == cfg && this.store == store && seen == {} && handled == []
    {
      this.cfg, this.store, seen, handled := cfg, store, {}, [];
    }

    method Seed(sample: seq<Key>)
      modifies this
      ensures seen == KeySet(sample) && handled == old(handled)
    {
      seen := KeySet(sample);
    }

    /** Poll once: forget the recovered units, then handle each newly failed unit once. */
    method RunOnce(sample: seq<Key>, world: Key -> World)
      requires !store.closed
      modifies this, store
      ensures !store.closed && State() == TickOnce(old(State()), cfg, sample, world)
    {
      var failed := Distinct(sample);
      DistinctIsSet(sample);
      seen := seen * KeySet(failed);
      ghost var start := State();
      for i := 0 to |failed|
        invariant !store.closed && State() == Sweep(start, cfg, failed[..i], world)
      {
        var key := failed[i];
        assert failed[..i + 1][..i] == failed[..i];
        if key !in seen {
          seen := seen + {key};
          handled := handled + [key];
          HandleUnit(key, world(key));
        }
      }
      assert failed[..|failed|] == failed;
    }

    method HandleUnit(key: Key, w: World)
      requires !store.closed
      modifies store
      ensures !store.closed && store.View() == HandledLog(old(store.View()), cfg, key, w)
    {
      var prior := store.Recent(GUARD_ROWS, GuardFilter(key.unit, w.readAt - cfg.windowS));
      var recorded := CountRestarts(prior);
      store.Interleave(w.during);
      DecideAndReport(key, recorded, w);
    }

    /** The part after the read: decide, restart perhaps, and record the outcome. */
    method DecideAndReport(key: Key, recorded: nat, w: World)
      requires !store.closed
      modifies store
      ensures !store.closed
      ensures store.View() == Reported(old(store.View()), w.writeAt, Verdict(cfg, key, recorded, w))
    {
      var attempts := Max(recorded, w.systemd);
      var decision := Decide(key.scope, attempts, cfg);
      if decision == DoSkip { return; }
      if decision == DoInform {
        var _ := store.Append(w.writeAt, InformDraft(key, recorded, w.systemd));
        return;
      }
      if w.result.Raised? { return; }
      var _ := store.Append(w.writeAt,
                            RestartDraft(key, w.result.ok, w.result.message, attempts + 1));
    }

    /** A finite part of the poll loop. A tick whose sample raises leaves the engine as it was. */
    method Poll(ticks: seq<Tick>)
      requires !store.closed
      modifies this, store
      ensures !store.closed && State() == Turns(old(State()), cfg, ticks)
    {
      for i := 0 to |ticks|
        invariant !store.closed && State() == Turns(old(State()), cfg, ticks[..i])
      {
        assert ticks[..i + 1][..i] == ticks[..i];
        store.Interleave(ticks[i].before);
        if ticks[i].sample.Some? {
          RunOnce(ticks[i].sample.value, ticks[i].world);
        }
      }
      assert ticks[..|ticks|] == ticks;
    }
  }

  method CountRestarts(rows: seq<Row>) returns (n: nat)
    ensures n == Restarts(rows)
  {
    n := 0;
    for i := 0 to |rows|
      invariant n == Restarts(rows[..i])
    {
      assert rows[..i + 1] == rows[..i] + [rows[i]];
      RestartsConcat(rows[..i], [rows[i]]);
      if IsRestart(rows[i]) { n := n + 1; }
    }
    assert rows[..|rows|] == rows;
  }

  // ---------------------------------------------------------------- facts

  lemma {:induction false} RestartsConcat(a: seq<Row>, b: seq<Row>)
    ensures Restarts(a + b) == Restarts(a) + Restarts(b)
  {
    if a == [] {
      assert a + b == b;
    } else {
      RestartsConcat(a[1..], b);
      assert (a + b)[1..] == a[1..] + b;
    }
  }

  lemma {:induction false} RestartsReverse(a: seq<Row>)
    ensures Restarts(Reverse(a)) == Restarts(a)
  {
    if a != [] {
      RestartsReverse(a[1..]);
      RestartsConcat(Reverse(a[1..]), [a[0]]);
    }
  }

  lemma {:induction false} DistinctIsSet(sample: seq<Key>)
    ensures KeySet(Distinct(sample)) == KeySet(sample)
    ensures NoRepeats(Distinct(sample))
  {
    if sample != [] {
      var init := sample[..|sample| - 1];
      DistinctIsSet(init);
      assert sample == init + [sample[|sample| - 1]];
      forall k ensures k in KeySet(Distinct(sample)) <==> k in KeySet(sample) {
        assert k in KeySet(Distinct(init)) <==> k in KeySet(init);
      }
    }
  }

  /** The places of `chosen` in `all`, in their order. */
  ghost predicate InOrder(all: seq<Key>, chosen: seq<Key>, places: seq<nat>) {
    && |places| == |chosen| && (forall k, m :: 0 <= k < m < |places| ==> places[k] < places[m])
    && forall k :: 0 <= k < |places| ==> places[k] < |all| && all[places[k]] == chosen[k]
  }

  ghost predicate WhereFirst(all: seq<Key>, chosen: seq<Key>, places: seq<nat>) {
    && InOrder(all, chosen, places)
    && forall k, m :: 0 <= k < |places| && 0 <= m < places[k] ==> all[m] != chosen[k]
  }

  lemma WhereFirstLonger(all: seq<Key>, chosen: seq<Key>, places: seq<nat>, last: Key)
    requires WhereFirst(all, chosen, places)
    ensures WhereFirst(all + [last], chosen, places)
  {
  }

  lemma WhereFirstMore(all: seq<Key>, chosen: seq<Key>, places: seq<nat>, last: Key)
    requires WhereFirst(all, chosen, places) && last !in all
    ensures WhereFirst(all + [last], chosen + [last], places + [|all|])
  {
  }

  lemma DistinctHas(sample: seq<Key>, k: Key)
    ensures k in Distinct(sample) <==> k in sample
  {
    DistinctIsSet(sample);
    assert k in Distinct(sample) <==> k in KeySet(Distinct(sample));
    assert k in sample <==> k in KeySet(sample);
  }

  /** Each key of a sample is taken where it is first listed, in that order. */
  lemma {:induction false} DistinctInOrder(sample: seq<Key>) returns (places: seq<nat>)
    ensures WhereFirst(sample, Distinct(sample), places)
  {
    places := [];
    if sample != [] {
      var n := |sample| - 1;
      var init, last := sample[..n], sample[n];
      places := DistinctInOrder(init);
      DistinctHas(init, last);
      assert init + [last] == sample;
      if last in init {
        WhereFirstLonger(init, Distinct(init), places, last);
      } else {
        WhereFirstMore(init, Distinct(init), places, last);
        places := places + [n];
      }
    }
  }

  /** The keys at these places, in their order, are all that were not seen before. */
  ghost predicate AllFresh(keys: seq<Key>, seen: set<Key>, chosen: seq<Key>, places: seq<nat>) {
    && InOrder(keys, chosen, places)
    && forall i: nat :: i in places <==> i < |keys| && keys[i] !in seen
  }

  lemma AllFreshMore(keys: seq<Key>, seen: set<Key>, chosen: seq<Key>, places: seq<nat>, last: Key)
    requires AllFresh(keys, seen, chosen, places)
    ensures if last in seen then AllFresh(keys + [last], seen, chosen, places)
            else AllFresh(keys + [last], seen, chosen + [last], places + [|keys|])
  {
    assert forall i: nat :: i in places + [|keys|] <==> i in places || i == |keys|;
  }

  /** Those not seen before are handled in that order. */
  lemma {:induction false} FreshInOrder(keys: seq<Key>, seen: set<Key>) returns (places: seq<nat>)
    ensures AllFresh(keys, seen, Fresh(keys, seen), places)
  {
    places := [];
    if keys != [] {
      var n := |keys| - 1;
      places := FreshInOrder(keys[..n], seen);
      AllFreshMore(keys[..n], seen, Fresh(keys[..n], seen), places, keys[n]);
      assert keys[..n] + [keys[n]] == keys;
      if keys[n] !in seen { places := places + [n]; }
    }
  }

  lemma {:induction false} ExecuteConcat(log: Log, cfg: Config, a: seq<Event>, b: seq<Event>)
    ensures Execute(log, cfg, a + b) == Execute(Execute(log, cfg, a), cfg, b)
    decreases |b|
  {
    if b == [] {
      assert a + b == a;
    } else {
      ExecuteConcat(log, cfg, a, b[..|b| - 1]);
      assert (a + b)[..|a + b| - 1] == a + b[..|b| - 1];
    }
  }

  lemma {:induction false} OthersExecute(log: Log, cfg: Config, a: seq<Event>, steps: seq<Step>)
    ensures Execute(log, cfg, a + Others(steps)) == AppliedAll(Execute(log, cfg, a), steps)
    decreases |steps|
  {
    if steps == [] {
      assert a + Others(steps) == a;
    } else {
      var first := [Other(steps[0])];
      assert a + Others(steps) == (a + first) + Others(steps[1..]);
      assert (a + first)[..|a + first| - 1] == a;
      OthersExecute(log, cfg, a + first, steps[1..]);
    }
  }

  lemma {:induction false} FreshIgnoresOthers(keys: seq<Key>, seen: set<Key>, seen': set<Key>)
    requires forall k :: k in keys ==> (k in seen <==> k in seen')
    ensures Fresh(keys, seen) == Fresh(keys, seen')
  {
    if keys != [] {
      assert keys[|keys| - 1] in keys;
      FreshIgnoresOthers(keys[..|keys| - 1], seen, seen');
    }
  }

  lemma FreshStep(log: Log, cfg: Config, keys: seq<Key>, seen: set<Key>, world: Key -> World)
    requires keys != [] && keys[|keys| - 1] !in seen
    ensures var n := |keys| - 1;
      Execute(log, cfg, HandleEach(Fresh(keys, seen), world))
        == HandledLog(Execute(log, cfg, HandleEach(Fresh(keys[..n], seen), world)), cfg,
                      keys[n], world(keys[n]))
  {
    var es := HandleEach(Fresh(keys, seen), world);
    assert es[..|es| - 1] == HandleEach(Fresh(keys[..|keys| - 1], seen), world);
  }

  /** What a sweep of these keys comes to. */
  function Swept(st: EngineState, cfg: Config, keys: seq<Key>, world: Key -> World): EngineState {
    var news := Fresh(keys, st.seen);
    EngineState(st.seen + KeySet(keys), st.handled + news, Execute(st.log, cfg, HandleEach(news, world)))
  }

  lemma SweptMore(st: EngineState, cfg: Config, keys: seq<Key>, world: Key -> World)
    requires keys != [] && NoRepeats(keys)
    ensures var n := |keys| - 1;
      Swept(st, cfg, keys, world) == Attended(Swept(st, cfg, keys[..n], world), cfg, keys[n], world(keys[n]))
  {
    var n := |keys| - 1;
    assert keys[n] !in keys[..n];
    assert KeySet(keys) == KeySet(keys[..n]) + {keys[n]} by { assert keys == keys[..n] + [keys[n]]; }
    if keys[n] in st.seen {
      assert st.seen + KeySet(keys) == st.seen + KeySet(keys[..n]);
    } else {
      FreshStep(st.log, cfg, keys, st.seen, world);
      assert st.handled + Fresh(keys, st.seen) == (st.handled + Fresh(keys[..n], st.seen)) + [keys[n]];
      assert st.seen + KeySet(keys) == (st.seen + KeySet(keys[..n])) + {keys[n]};
    }
  }

  /** A sweep handles exactly the keys that were not seen before it. */
  lemma {:induction false} SweepMeaning(st: EngineState, cfg: Config, keys: seq<Key>, world: Key -> World)
    requires NoRepeats(keys)
    ensures Sweep(st, cfg, keys, world) == Swept(st, cfg, keys, world)
  {
    if keys == [] {
      assert st.handled + [] == st.handled && st.seen + KeySet([]) == st.seen;
    } else {
      SweepMeaning(st, cfg, keys[..|keys| - 1], world);
      SweptMore(st, cfg, keys, world);
    }
  }

  /** Every completed tick leaves `seen` equal to the sample and handles its newly failed
      units, each once. */
  lemma TickMeaning(st: EngineState, cfg: Config, sample: seq<Key>, world: Key -> World)
    ensures var news := Fresh(Distinct(sample), st.seen);
      TickOnce(st, cfg, sample, world)
        == EngineState(KeySet(sample), st.handled + news,
                       Execute(st.log, cfg, HandleEach(news, world)))
  {
    var keys := Distinct(sample);
    var kept := st.seen * KeySet(sample);
    DistinctIsSet(sample);
    SweepMeaning(st.(seen := kept), cfg, keys, world);
    forall k | k in keys ensures k in st.seen <==> k in kept {
      assert k in KeySet(keys);
    }
    FreshIgnoresOthers(keys, st.seen, kept);
  }

  lemma RunEventsStep(log: Log, cfg: Config, seed: set<Key>, ticks: seq<Tick>)
    requires ticks != []
    ensures var n := |ticks| - 1;
      Execute(log, cfg, RunEvents(seed, ticks))
        == Execute(AppliedAll(Execute(log, cfg, RunEvents(seed, ticks[..n])), ticks[n].before), cfg,
                   HandleEach(TickKeys(seed, ticks, n), ticks[n].world))
  {
    var n := |ticks| - 1;
    var soFar := RunEvents(seed, ticks[..n]);
    OthersExecute(log, cfg, soFar, ticks[n].before);
    ExecuteConcat(log, cfg, soFar + Others(ticks[n].before),
                  HandleEach(TickKeys(seed, ticks, n), ticks[n].world));
  }

  lemma TurnMeaning(st: EngineState, cfg: Config, t: Tick)
    ensures var news := if t.sample.None? then [] else Fresh(Distinct(t.sample.value), st.seen);
      Turn(st, cfg, t)
        == EngineState(if t.sample.None? then st.seen else KeySet(t.sample.value), st.handled + news,
                       Execute(AppliedAll(st.log, t.before), cfg, HandleEach(news, t.world)))
  {
    if t.sample.Some? {
      TickMeaning(st.(log := AppliedAll(st.log, t.before)), cfg, t.sample.value, t.world);
    }
  }

  /** After a run of the poll loop `seen` is the last sample that could be taken, each sampled
      unit that was not in the sample before has been handled, and the log is the result of one
      sequence of store events. */
  lemma {:induction false} RunMeaning(st: EngineState, cfg: Config, ticks: seq<Tick>)
    ensures Turns(st, cfg, ticks)
         == EngineState(SeenAfter(st.seen, ticks), st.handled + HandledOver(st.seen, ticks),
                        Execute(st.log, cfg, RunEvents(st.seen, ticks)))
  {
    if ticks != [] {
      var n := |ticks| - 1;
      RunMeaning(st, cfg, ticks[..n]);
      RunEventsStep(st.log, cfg, st.seen, ticks);
      TurnMeaning(Turns(st, cfg, ticks[..n]), cfg, ticks[n]);
      Assoc(st.handled, HandledOver(st.seen, ticks[..n]), TickKeys(st.seen, ticks, n));
    }
  }

  lemma {:induction false} FreshCount(keys: seq<Key>, seen: set<Key>, k: Key)
    requires NoRepeats(keys)
    ensures multiset(Fresh(keys, seen))[k] == if k in keys && k !in seen then 1 else 0
  {
    if keys != [] {
      var init, last := keys[..|keys| - 1], keys[|keys| - 1];
      FreshCount(init, seen, k);
      assert keys == init + [last];
      assert k in keys <==> k in init || k == last;
      assert last !in init;
    }
  }

  lemma EdgesSnoc(k: Key, seed: set<Key>, ticks: seq<Tick>)
    requires ticks != []
    ensures var n := |ticks| - 1;
      |RisingEdges(k, seed, ticks)| == |RisingEdges(k, seed, ticks[..n])|
        + if ticks[n].sample.Some? && k in ticks[n].sample.value && k !in SeenAfter(seed, ticks[..n])
          then 1 else 0
  {
    var n := |ticks| - 1;
    var init := ticks[..n];
    forall i | 0 <= i < n ensures ticks[..i] == init[..i] {}
    var now := RisingEdges(k, seed, ticks) * {n};
    assert RisingEdges(k, seed, ticks) == RisingEdges(k, seed, init) + now;
    assert n !in RisingEdges(k, seed, init);
    assert now == {} || now == {n};
  }

  /** Over any run of ticks, a unit is handled exactly once per rising edge of its failure. */
  lemma {:induction false} HandledOncePerEdge(seed: set<Key>, ticks: seq<Tick>, k: Key)
    ensures multiset(HandledOver(seed, ticks))[k] == |RisingEdges(k, seed, ticks)|
  {
    if ticks != [] {
      var n := |ticks| - 1;
      HandledOncePerEdge(seed, ticks[..n], k);
      EdgesSnoc(k, seed, ticks);
      if ticks[n].sample.Some? {
        var sample := ticks[n].sample.value;
        DistinctIsSet(sample);
        assert k in KeySet(Distinct(sample)) <==> k in KeySet(sample);
        FreshCount(Distinct(sample), SeenAfter(seed, ticks[..n]), k);
      }
    }
  }
}

/**
 The safety gate: a switch needs a successful test earlier in the same session and a yes
 of its own. First one call, as it is done; then any number of queries in any number of
 sessions, interleaved at every point where a call waits.
 */
module SessionGate {
  import opened Options
  import opened Sequences

  datatype Action = Test | Switch | Boot | Revert | Unknown

  /** `Sent` is what a call sends; `Applied` is the switch that an edit of the package list
      sends, past the gate. */
  datatype Local = Recorded(ok: bool) | Answered(yes: bool) | Sent(action: Action) | Applied

  datatype Answer = Yes | No | AskRaises

  /** The helper's exit code, or none when talking to it raised. */
  type Report = Option<int>

  datatype Reply = Refused | Cancelled | Finished(code: int) | Raised

  /** The outcome of the last test that was recorded. */
  function LatestTest(t: seq<Local>): Option<bool> {
    if t == [] then None
    else if t[|t| - 1].Recorded? then Some(t[|t| - 1].ok)
    else LatestTest(t[..|t| - 1])
  }

  predicate NeedsYes(a: Action) { a == Switch || a == Boot }

  predicate EndsWith(t: seq<Local>, e: Local) { t != [] && t[|t| - 1] == e }

  /** Whether `e` may come after `t`: a switch or boot is sent only on a yes of its own, a
      switch only when the latest recorded test had succeeded, an outcome is recorded only of
      the test just sent, and an edit is applied only on a yes of its own. */
  predicate MayFollow(t: seq<Local>, e: Local) {
    match e
    case Sent(a) => (NeedsYes(a) ==> EndsWith(t, Answered(true))) && (a == Switch ==> LatestTest(t) == Some(true))
    case Recorded(_) => EndsWith(t, Sent(Test))
    case Answered(_) => true
    case Applied => EndsWith(t, Answered(true))
  }

  ghost predicate LicensedAt(t: seq<Local>, i: nat) {
    i < |t| && MayFollow(t[..i], t[i])
  }

  /** Every event of the record was allowed when it came. */
  ghost predicate Licensed(t: seq<Local>) { forall i :: 0 <= i < |t| ==> LicensedAt(t, i) }

  // ---------------------------------------------------------------- one call

  /** What a report adds to it. */
  function Outcome(a: Action, report: Report): seq<Local> {
    if a == Test && report.Some? then [Recorded(report.value == 0)] else []
  }

  /** What a call adds to the session's record. */
  function Effects(a: Action, testOk: bool, answer: Answer, report: Report): seq<Local> {
    if a == Unknown || (a == Switch && !testOk) || (NeedsYes(a) && answer == AskRaises) then []
    else if NeedsYes(a) && answer == No then [Answered(false)]
    else (if NeedsYes(a) then [Answered(true)] else []) + [Sent(a)] + Outcome(a, report)
  }

  class SessionState {
    var lastTestOk: bool
    ghost var record: seq<Local>

    constructor ()
      ensures !lastTestOk && record == []
    {
      lastTestOk, record := false, [];
    }

    /** The flag is the outcome of the latest recorded test. */
    ghost predicate Valid()
      reads this
    {
      (lastTestOk <==> LatestTest(record) == Some(true)) && Licensed(record)
    }

    method Rebuild(action: Action, answer: Answer, report: Report) returns (reply: Reply)
      requires Valid()
      modifies this
      ensures Valid()
      ensures record == old(record) + Effects(action, old(lastTestOk), answer, report)
      ensures reply == Refused <==> action == Switch && !old(lastTestOk)
      ensures reply == Cancelled <==> NeedsYes(action) && answer == No && reply != Refused
      ensures (reply.Finished? <==>
               report.Some? && action != Unknown && reply != Refused && (NeedsYes(action) ==> answer == Yes))
      ensures reply.Finished? ==> report == Some(reply.code)
    {
      ghost var t := record;
      if action == Unknown { return Raised; }
      if action == Switch && !lastTestOk { return Refused; }
      if NeedsYes(action) {
        if answer == AskRaises { return Raised; }
        Note(Answered(answer == Yes));
        if answer == No { return Cancelled; }
      }
      ghost var asked := record;
      reply := Dispatch(action, report);
      Sums(t, action, answer, report, asked);
    }

    /** The helper is asked; the outcome of a test is recorded. */
    method Dispatch(action: Action, report: Report) returns (reply: Reply)
      requires Valid() && action != Unknown && MayFollow(record, Sent(action))
      modifies this
      ensures Valid() && record == old(record) + [Sent(action)] + Outcome(action, report)
      ensures reply == if report.Some? then Finished(report.value) else Raised
    {
      Note(Sent(action));
      if report.None? { return Raised; }
      if action == Test {
        lastTestOk := report.value == 0;
        Note(Recorded(lastTestOk));
      }
      reply := Finished(report.value);
    }

    ghost method Note(e: Local)
      requires Licensed(record) && MayFollow(record, e)
      modifies this`record
      ensures record == old(record) + [e] && Licensed(record)
      ensures LatestTest(record) == if e.Recorded? then Some(e.ok) else LatestTest(old(record))
    {
      AppendTest(record, e);
      AppendLicensed(record, e);
      record := record + [e];
    }
  }

  /** `Effects`, added to a record piece by piece. */
  lemma Sums(t: seq<Local>, a: Action, answer: Answer, report: Report, asked: seq<Local>)
    requires a != Unknown && (NeedsYes(a) ==> answer == Yes)
    requires asked == if NeedsYes(a) then t + [Answered(true)] else t
    ensures t + Effects(a, true, answer, report)
         == asked + [Sent(a)] + Outcome(a, report)
  {
  }

  lemma AppendTest(t: seq<Local>, e: Local)
    ensures LatestTest(t + [e]) == if e.Recorded? then Some(e.ok) else LatestTest(t)
  {
    assert (t + [e])[..|t|] == t;
  }

  lemma AppendLicensed(t: seq<Local>, e: Local)
    requires Licensed(t) && MayFollow(t, e)
    ensures Licensed(t + [e])
  {
    var u := t + [e];
    forall i | 0 <= i < |u| ensures LicensedAt(u, i) {
      assert u[..i] == t[..i];
      if i < |t| { assert LicensedAt(t, i); }
    }
  }

  // ---------------------------------------------------------------- many sessions

  datatype Phase = Idle | Asking(action: Action) | Running(action: Action) | Offering | Applying

  /** A query inside its session, and what its current call waits for. */
  datatype Query = Query(session: string, phase: Phase)

  /** The flags and records of all sessions, and the queries that hold or wait. */
  datatype Gate = Gate(testOk: set<string>, active: map<nat, Query>, records: map<string, seq<Local>>)

  const START := Gate({}, map[], map[])

  function RecordOf(g: Gate, s: string): seq<Local> { if s in g.records then g.records[s] else [] }

  datatype Move =
    | Enter(q: nat, session: string)        // the query gets the session's lock
    | Call(q: nat, action: Action)          // a tool call starts
    | Reply(q: nat, yes: bool)              // the question is answered
    | Return(q: nat, report: Report)        // the helper is done, or gone
    | Offer(q: nat)                         // an edit, validated apart, is shown
    | Accept(q: nat, yes: bool)             // it is answered, and on a yes the switch is sent
    | Settle(q: nat, rolledBack: bool)      // the switch is done, or failed and was rolled back
    | Leave(q: nat)                         // the query ends, or is cancelled while it waits

  function Noted(g: Gate, s: string, e: Local): Gate {
    g.(records := g.records[s := RecordOf(g, s) + [e]])
  }

  function InPhase(g: Gate, q: nat, p: Phase): Gate
    requires q in g.active
  {
    g.(active := g.active[q := Query(g.active[q].session, p)])
  }

  predicate Occupied(g: Gate, s: string) { exists q :: q in g.active && g.active[q].session == s }

  /** One move, or none when it cannot happen. `serial` says whether the session lock is
      honoured. */
  function Next(g: Gate, serial: bool, m: Move): Option<Gate> {
    match m
    case Enter(q, s) =>
      if q in g.active || (serial && Occupied(g, s)) then None
      else Some(g.(active := g.active[q := Query(s, Idle)]))
    case Call(q, a) =>
      if q !in g.active || g.active[q].phase != Idle then None
      else
        var s := g.active[q].session;
        if a == Unknown || (a == Switch && s !in g.testOk) then Some(g)
        else if NeedsYes(a) then Some(InPhase(g, q, Asking(a)))
        else Some(Noted(InPhase(g, q, Running(a)), s, Sent(a)))
    case Reply(q, yes) =>
      if q !in g.active || !g.active[q].phase.Asking? then None
      else
        var s, a := g.active[q].session, g.active[q].phase.action;
        if yes then Some(Noted(Noted(InPhase(g, q, Running(a)), s, Answered(true)), s, Sent(a)))
        else Some(Noted(InPhase(g, q, Idle), s, Answered(false)))
    case Return(q, report) =>
      if q !in g.active || !g.active[q].phase.Running? then None
      else
        var s, a := g.active[q].session, g.active[q].phase.action;
        var done := InPhase(g, q, Idle);
        if a == Test && report.Some? then
          var ok := report.value == 0;
          Some(Noted(done.(testOk := if ok then done.testOk + {s} else done.testOk - {s}), s, Recorded(ok)))
        else Some(done)
    case Offer(q) =>
      if q !in g.active || g.active[q].phase != Idle then None else Some(InPhase(g, q, Offering))
    case Accept(q, yes) =>
      if q !in g.active || g.active[q].phase != Offering then None
      else
        var s := g.active[q].session;
        if yes then Some(Noted(Noted(InPhase(g, q, Applying), s, Answered(true)), s, Applied))
        else Some(Noted(InPhase(g, q, Idle), s, Answered(false)))
    case Settle(q, rolledBack) =>
      if q !in g.active || g.active[q].phase != Applying then None
      else
        var done := InPhase(g, q, Idle);
        Some(if rolledBack then Noted(done, g.active[q].session, Sent(Revert)) else done)
    case Leave(q) =>
      if q !in g.active then None else Some(g.(active := g.active - {q}))
  }

  function Play(g: Gate, serial: bool, moves: seq<Move>): Option<Gate>
    decreases |moves|
  {
    if moves == [] then Some(g)
    else
      var next := Next(g, serial, moves[0]);
      if next.None? then None else Play(next.value, serial, moves[1..])
  }

  /** Each session's flag is its latest recorded test, and its record is licensed. */
  ghost predicate Books(g: Gate) {
    && (forall s :: s in g.testOk <==> LatestTest(RecordOf(g, s)) == Some(true))
    && (forall s :: Licensed(RecordOf(g, s)))
  }

  /** A query that waits for its answer still has what its action needs, and has its
      session to itself. */
  ghost predicate Waits(g: Gate) {
    && (forall q :: q in g.active && g.active[q].phase.Asking? ==> NeedsYes(g.active[q].phase.action))
    && (forall q :: q in g.active && g.active[q].phase == Asking(Switch) ==> g.active[q].session in g.testOk)
    && (forall p, q :: p in g.active && q in g.active && p != q ==> g.active[p].session != g.active[q].session)
  }

  /** The report a query waits for is that of the test its session sent last. */
  ghost predicate Awaited(g: Gate) {
    forall q :: q in g.active && g.active[q].phase == Running(Test)
      ==> EndsWith(RecordOf(g, g.active[q].session), Sent(Test))
  }

  ghost predicate Inv(g: Gate) { Books(g) && Waits(g) && Awaited(g) }

  /** Noting a licensed event keeps the books, if the flag follows a recorded test. */
  lemma NotedKeepsBooks(g: Gate, testOk: set<string>, s: string, e: Local)
    requires Books(g)
    requires forall r :: r in testOk <==> if r == s && e.Recorded? then e.ok else r in g.testOk
    requires MayFollow(RecordOf(g, s), e)
    ensures Books(Noted(g, s, e).(testOk := testOk))
  {
    var h := Noted(g, s, e).(testOk := testOk);
    AppendTest(RecordOf(g, s), e);
    AppendLicensed(RecordOf(g, s), e);
    forall r ensures Licensed(RecordOf(h, r)) && (r in testOk <==> LatestTest(RecordOf(h, r)) == Some(true)) {
      assert RecordOf(h, r) == if r == s then RecordOf(g, s) + [e] else RecordOf(g, r);
    }
  }

  lemma YesKeepsBooks(g: Gate, s: string, a: Action)
    requires Books(g) && (a == Switch ==> s in g.testOk)
    ensures Books(Noted(Noted(g, s, Answered(true)), s, Sent(a)))
  {
    NotedKeepsBooks(g, g.testOk, s, Answered(true));
    AppendTest(RecordOf(g, s), Answered(true));
    NotedKeepsBooks(Noted(g, s, Answered(true)), g.testOk, s, Sent(a));
  }

  lemma StepKeepsBooks(g: Gate, m: Move)
    requires Books(g) && Next(g, true, m).Some? && (m.Enter? || m.Call? || m.Leave? || m.Offer?)
    ensures Books(Next(g, true, m).value)
  {
    if m.Call? && Next(g, true, m).value.records != g.records {
      NotedKeepsBooks(InPhase(g, m.q, Running(m.action)), g.testOk, g.active[m.q].session, Sent(m.action));
    }
  }

  lemma ReplyKeepsBooks(g: Gate, q: nat, yes: bool)
    requires Inv(g) && q in g.active && g.active[q].phase.Asking?
    ensures Books(Next(g, true, Reply(q, yes)).value)
  {
    var s, a := g.active[q].session, g.active[q].phase.action;
    if yes {
      YesKeepsBooks(InPhase(g, q, Running(a)), s, a);
    } else {
      NotedKeepsBooks(InPhase(g, q, Idle), g.testOk, s, Answered(false));
    }
  }

  lemma ReturnKeepsBooks(g: Gate, q: nat, report: Report)
    requires Inv(g) && q in g.active && g.active[q].phase.Running?
    ensures Books(Next(g, true, Return(q, report)).value)
  {
    var s, a := g.active[q].session, g.active[q].phase.action;
    if a == Test && report.Some? {
      var h := Next(g, true, Return(q, report)).value;
      NotedKeepsBooks(InPhase(g, q, Idle), h.testOk, s, Recorded(report.value == 0));
    }
  }

  lemma AcceptKeepsBooks(g: Gate, q: nat, yes: bool)
    requires Books(g) && Next(g, true, Accept(q, yes)).Some?
    ensures Books(Next(g, true, Accept(q, yes)).value)
  {
    var s := g.active[q].session;
    if yes {
      var asked := InPhase(g, q, Applying);
      NotedKeepsBooks(asked, g.testOk, s, Answered(true));
      NotedKeepsBooks(Noted(asked, s, Answered(true)), g.testOk, s, Applied);
    } else {
      NotedKeepsBooks(InPhase(g, q, Idle), g.testOk, s, Answered(false));
    }
  }

  lemma SettleKeepsBooks(g: Gate, q: nat, rolledBack: bool)
    requires Books(g) && Next(g, true, Settle(q, rolledBack)).Some?
    ensures Books(Next(g, true, Settle(q, rolledBack)).value)
  {
    if rolledBack { NotedKeepsBooks(InPhase(g, q, Idle), g.testOk, g.active[q].session, Sent(Revert)); }
  }

  lemma MoveKeepsBooks(g: Gate, m: Move)
    requires Inv(g) && Next(g, true, m).Some?
    ensures Books(Next(g, true, m).value)
  {
    match m
    case Reply(q, yes) => ReplyKeepsBooks(g, q, yes);
    case Return(q, report) => ReturnKeepsBooks(g, q, report);
    case Accept(q, yes) => AcceptKeepsBooks(g, q, yes);
    case Settle(q, rolledBack) => SettleKeepsBooks(g, q, rolledBack);
    case _ => StepKeepsBooks(g, m);
  }

  /** A change to one query keeps what the others wait with. */
  lemma ChangeKeepsWaits(g: Gate, q: nat, p: Phase, testOk: set<string>)
    requires Waits(g) && q in g.active
    requires p.Asking? ==> NeedsYes(p.action) && (p.action == Switch ==> g.active[q].session in g.testOk)
    requires testOk == g.testOk || (!p.Asking? && testOk - {g.active[q].session} == g.testOk - {g.active[q].session})
    ensures Waits(InPhase(g, q, p).(testOk := testOk))
  {
    var h := InPhase(g, q, p).(testOk := testOk);
    forall x | x in h.active && h.active[x].phase == Asking(Switch) ensures h.active[x].session in testOk {
      var s := g.active[x].session;
      if x != q { assert s in g.testOk - {g.active[q].session}; }
    }
  }

  lemma MoveKeepsWaits(g: Gate, m: Move)
    requires Waits(g) && Next(g, true, m).Some?
    ensures Waits(Next(g, true, m).value)
  {
    var h := Next(g, true, m).value;
    match m
    case Enter(_, s) => assert !Occupied(g, s);
    case Leave(q) =>
    case _ =>
      if h != g { ChangeKeepsWaits(g, m.q, h.active[m.q].phase, h.testOk); }
  }

  lemma MoveKeepsAwaited(g: Gate, m: Move)
    requires Inv(g) && Next(g, true, m).Some?
    ensures Awaited(Next(g, true, m).value)
  {
    var h := Next(g, true, m).value;
    forall x | x in h.active && h.active[x].phase == Running(Test)
      ensures EndsWith(RecordOf(h, h.active[x].session), Sent(Test))
    {
      if x != m.q {
        OthersKeepRecords(g, m, x);
      } else {
        assert m.Call? || h == g;
      }
    }
  }

  /** A move of one query leaves the session record of any other as it is. */
  lemma OthersKeepRecords(g: Gate, m: Move, x: nat)
    requires Waits(g) && Next(g, true, m).Some? && x in Next(g, true, m).value.active && x != m.q
    ensures var h := Next(g, true, m).value;
      && x in g.active && h.active[x] == g.active[x]
      && RecordOf(h, g.active[x].session) == RecordOf(g, g.active[x].session)
  {
  }

  /** Any move of any query keeps the invariant while the locks are honoured. */
  lemma MoveKeepsInv(g: Gate, m: Move)
    requires Inv(g) && Next(g, true, m).Some?
    ensures Inv(Next(g, true, m).value)
  {
    MoveKeepsBooks(g, m);
    MoveKeepsWaits(g, m);
    MoveKeepsAwaited(g, m);
  }

  lemma {:induction false} PlayKeepsInv(g: Gate, moves: seq<Move>)
    requires Inv(g) && Play(g, true, moves).Some?
    ensures Inv(Play(g, true, moves).value)
    decreases |moves|
  {
    if moves != [] {
      MoveKeepsInv(g, moves[0]);
      PlayKeepsInv(Next(g, true, moves[0]).value, moves[1..]);
    }
  }

  /** In every interleaving of every number of queries, each session's switches and boots
      follow a yes of their own, and each switch a latest recorded test that succeeded. */
  lemma TestBeforeSwitch(moves: seq<Move>, s: string)
    requires Play(START, true, moves).Some?
    ensures Licensed(RecordOf(Play(START, true, moves).value, s))
  {
    PlayKeepsInv(START, moves);
  }

  /** The other rule: an edit of the package list needs a yes of its own, and no test. */
  lemma LicensedEdit(t: seq<Local>, i: nat)
    requires Licensed(t) && i < |t| && t[i] == Applied
    ensures 0 < i && t[i - 1] == Answered(true)
  {
    assert LicensedAt(t, i);
  }

  /** It is indeed sent in sessions that have seen no test at all. */
  lemma EditNeedsNoTest(q: nat, s: string)
    ensures var end := Play(START, true, [Enter(q, s), Offer(q), Accept(q, true)]);
      end.Some? && RecordOf(end.value, s) == [Answered(true), Applied] && LatestTest(RecordOf(end.value, s)) == None
  {
    PlayThree(START, true, Enter(q, s), Offer(q), Accept(q, true));
    var t := [Answered(true), Applied];
    assert RecordOf(START, s) + [Answered(true)] == [Answered(true)] && [Answered(true)] + [Applied] == t;
    assert t[..1] == [Answered(true)] && t[..1][..0] == [];
    assert LatestTest(t[..1]) == None;
  }

  /** The last test recorded in `t` is at `k`, and came out as `ok`. */
  ghost predicate LastTestAt(t: seq<Local>, k: nat, ok: bool) {
    k < |t| && t[k] == Recorded(ok) && forall j :: k < j < |t| ==> !t[j].Recorded?
  }

  /** What a licensed record says of a switch: a yes just before it, and the last test before
      it succeeded. */
  lemma LicensedSwitch(t: seq<Local>, i: nat)
    requires Licensed(t) && i < |t| && t[i] == Sent(Switch)
    ensures 0 < i && t[i - 1] == Answered(true)
    ensures exists k :: LastTestAt(t[..i], k, true)
  {
    assert LicensedAt(t, i);
    var k := LatestTestAt(t[..i]);
  }

  /** What it says of a boot: a yes just before it. */
  lemma LicensedBoot(t: seq<Local>, i: nat)
    requires Licensed(t) && i < |t| && t[i] == Sent(Boot)
    ensures 0 < i && t[i - 1] == Answered(true)
  {
    assert LicensedAt(t, i);
  }

  /** What one call adds, by its action: a switch is sent on a recorded success and a yes, a boot on a
      yes, a test or a revert always, and nothing else; only a test's report is recorded, as a
      success if its code was zero. */
  lemma CallSends(a: Action, testOk: bool, answer: Answer, report: Report)
    ensures var added := Effects(a, testOk, answer, report);
      && (Sent(Switch) in added <==> a == Switch && testOk && answer == Yes)
      && (Sent(Boot) in added <==> a == Boot && answer == Yes)
      && (Sent(Test) in added <==> a == Test) && (Sent(Revert) in added <==> a == Revert)
      && Sent(Unknown) !in added && Applied !in added
      && (forall ok :: Recorded(ok) in added <==> a == Test && report.Some? && (ok <==> report.value == 0))
      && (forall yes :: Answered(yes) in added <==>
            (a == Boot || (a == Switch && testOk)) && answer == if yes then Yes else No)
  {
  }

  lemma {:induction false} LatestTestAt(t: seq<Local>) returns (k: nat)
    requires LatestTest(t).Some?
    ensures LastTestAt(t, k, LatestTest(t).value)
  {
    var n := |t| - 1;
    if t[n].Recorded? {
      k := n;
    } else {
      k := LatestTestAt(t[..n]);
      forall j | k < j < |t| ensures !t[j].Recorded? {
        if j < n { assert t[..n][j] == t[j]; }
      }
    }
  }

  // ---------------------------------------------------------------- the two views agree

  function CallMoves(q: nat, a: Action, testOk: bool, answer: Answer, report: Report): seq<Move> {
    if a == Unknown || (a == Switch && !testOk) then [Call(q, a)]
    else if NeedsYes(a) then
      if answer == Yes then [Call(q, a), Reply(q, true), Return(q, report)] else [Call(q, a), Reply(q, false)]
    else [Call(q, a), Return(q, report)]
  }

  ghost predicate Adds(g: Gate, end: Option<Gate>, q: nat, added: seq<Local>) {
    && q in g.active && end.Some? && end.value.active == g.active
    && RecordOf(end.value, g.active[q].session) == RecordOf(g, g.active[q].session) + added
  }

  /** Left alone, a call in the machine adds to its session's record exactly what the call
      does when it is made. */
  lemma CallAddsEffects(g: Gate, q: nat, a: Action, answer: Answer, report: Report)
    requires q in g.active && g.active[q].phase == Idle && answer != AskRaises
    ensures var ok := g.active[q].session in g.testOk;
      Adds(g, Play(g, true, CallMoves(q, a, ok, answer, report)), q, Effects(a, ok, answer, report))
  {
    if a == Unknown || (a == Switch && g.active[q].session !in g.testOk) {
      RefusedCall(g, q, a);
    } else if NeedsYes(a) {
      AskedCall(g, q, a, answer, report);
    } else {
      PlainCall(g, q, a, report);
    }
    EffectsByCase(a, g.active[q].session in g.testOk, answer, report);
  }

  lemma EffectsByCase(a: Action, testOk: bool, answer: Answer, report: Report)
    requires answer != AskRaises
    ensures Effects(a, testOk, answer, report)
         == if a == Unknown || (a == Switch && !testOk) then []
            else if NeedsYes(a) then if answer == Yes then [Answered(true), Sent(a)] else [Answered(false)]
            else [Sent(a)] + if a == Test && report.Some? then [Recorded(report.value == 0)] else []
  {
  }

  lemma RefusedCall(g: Gate, q: nat, a: Action)
    requires q in g.active && g.active[q].phase == Idle
    requires a == Unknown || (a == Switch && g.active[q].session !in g.testOk)
    ensures Adds(g, Play(g, true, [Call(q, a)]), q, [])
  {
    PlayOne(g, true, Call(q, a));
    assert RecordOf(g, g.active[q].session) + [] == RecordOf(g, g.active[q].session);
  }

  lemma PlainCall(g: Gate, q: nat, a: Action, report: Report)
    requires q in g.active && g.active[q].phase == Idle && (a == Test || a == Revert)
    ensures Adds(g, Play(g, true, [Call(q, a), Return(q, report)]), q,
                 [Sent(a)] + if a == Test && report.Some? then [Recorded(report.value == 0)] else [])
  {
    PlayTwo(g, true, Call(q, a), Return(q, report));
    if a == Test && report.Some? {
      TestReturns(g, q, report.value);
    } else {
      SentReturns(g, q, a, report);
    }
  }

  lemma SentReturns(g: Gate, q: nat, a: Action, report: Report)
    requires q in g.active && g.active[q].phase == Idle && (a == Revert || (a == Test && report.None?))
    ensures Adds(g, Next(Next(g, true, Call(q, a)).value, true, Return(q, report)), q, [Sent(a)])
  {
    assert g.active[q := Query(g.active[q].session, Running(a))][q := g.active[q]] == g.active;
  }

  lemma TestReturns(g: Gate, q: nat, code: int)
    requires q in g.active && g.active[q].phase == Idle
    ensures Adds(g, Next(Next(g, true, Call(q, Test)).value, true, Return(q, Some(code))), q,
                 [Sent(Test)] + [Recorded(code == 0)])
  {
    assert g.active[q := Query(g.active[q].session, Running(Test))][q := g.active[q]] == g.active;
    Assoc(RecordOf(g, g.active[q].session), [Sent(Test)], [Recorded(code == 0)]);
  }

  lemma AskedCall(g: Gate, q: nat, a: Action, answer: Answer, report: Report)
    requires q in g.active && g.active[q].phase == Idle && answer != AskRaises
    requires NeedsYes(a) && (a == Switch ==> g.active[q].session in g.testOk)
    ensures Adds(g, Play(g, true, CallMoves(q, a, true, answer, report)), q,
                 if answer == Yes then [Answered(true), Sent(a)] else [Answered(false)])
  {
    var s := g.active[q].session;
    var b := Next(g, true, Call(q, a)).value;
    assert b == InPhase(g, q, Asking(a));
    assert b.active[q := Query(s, Idle)] == g.active;
    if answer == Yes {
      var c := Next(b, true, Reply(q, true)).value;
      PlayThree(g, true, Call(q, a), Reply(q, true), Return(q, report));
      assert c.active[q := Query(s, Idle)] == g.active;
      assert RecordOf(c, s) == (RecordOf(g, s) + [Answered(true)]) + [Sent(a)];
    } else {
      PlayTwo(g, true, Call(q, a), Reply(q, false));
    }
  }

  lemma PlayOne(g: Gate, serial: bool, m: Move)
    ensures Play(g, serial, [m]) == Next(g, serial, m)
  {
  }

  lemma PlayTwo(g: Gate, serial: bool, m: Move, n: Move)
    requires Next(g, serial, m).Some?
    ensures Play(g, serial, [m, n]) == Next(Next(g, serial, m).value, serial, n)
  {
    assert [m, n][1..] == [n];
    PlayOne(Next(g, serial, m).value, serial, n);
  }

  lemma PlayThree(g: Gate, serial: bool, m: Move, n: Move, o: Move)
    requires Next(g, serial, m).Some? && Next(Next(g, serial, m).value, serial, n).Some?
    ensures Play(g, serial, [m, n, o]) == Next(Next(Next(g, serial, m).value, serial, n).value, serial, o)
  {
    assert [m, n, o][1..] == [n, o];
    PlayTwo(Next(g, serial, m).value, serial, n, o);
  }

  lemma {:induction false} PlayConcat(g: Gate, serial: bool, a: seq<Move>, b: seq<Move>)
    ensures Play(g, serial, a + b)
         == (if Play(g, serial, a).None? then None else Play(Play(g, serial, a).value, serial, b))
    decreases |a|
  {
    if a == [] {
      assert a + b == b;
    } else {
      assert (a + b)[1..] == a[1..] + b;
      if Next(g, serial, a[0]).Some? { PlayConcat(Next(g, serial, a[0]).value, serial, a[1..], b); }
    }
  }

  // ---------------------------------------------------------------- what the guarantee rests on

  /** Without the session lock it fails: whatever has happened before, a second query's
      failing test can slip in between the first one's check and its switch. */
  lemma LockIsNeeded(g: Gate, p: nat, q: nat)
    requires p in g.active && g.active[p].phase == Asking(Switch) && q !in g.active
    ensures var s := g.active[p].session;
      var end := Play(g, false, [Enter(q, s), Call(q, Test), Return(q, Some(1))] + [Reply(p, true)]);
      end.Some? && !Licensed(RecordOf(end.value, s))
  {
    var s := g.active[p].session;
    var race := [Enter(q, s), Call(q, Test), Return(q, Some(1))];
    PlayThree(g, false, race[0], race[1], race[2]);
    PlayConcat(g, false, race, [Reply(p, true)]);
    var d := Play(g, false, race).value;
    PlayOne(d, false, Reply(p, true));
    var t := RecordOf(g, s) + [Sent(Test)];
    assert d.active[p] == g.active[p];
    assert RecordOf(d, s) == t + [Recorded(false)];
    LateSwitch(t);
  }

  lemma LateSwitch(t: seq<Local>)
    ensures !Licensed(t + [Recorded(false)] + [Answered(true)] + [Sent(Switch)])
  {
    var u := t + [Recorded(false)] + [Answered(true)];
    AppendTest(t, Recorded(false));
    AppendTest(t + [Recorded(false)], Answered(true));
    var v := u + [Sent(Switch)];
    assert v[|u|] == Sent(Switch) && v[..|u|] == u;
    assert !LicensedAt(v, |u|);
  }

  /** The last test sent in `t` is at `k`. */
  ghost predicate LastSentAt(t: seq<Local>, k: nat) {
    k < |t| && t[k] == Sent(Test) && forall j :: k < j < |t| ==> t[j] != Sent(Test)
  }

  /** The licence is the latest recorded test, not the latest one sent. The two are the same
      exactly when the test that was sent last was reported at all, which it is at once or
      never; and a switch that then follows means that it succeeded. */
  lemma LatestAttempt(t: seq<Local>, i: nat, k: nat)
    requires Licensed(t) && i < |t| && t[i] == Sent(Switch) && LastSentAt(t[..i], k)
    ensures (exists j :: k < j && LastTestAt(t[..i], j, true)) <==> exists j :: k < j < i && t[j].Recorded?
    ensures (exists j :: k < j < i && t[j].Recorded?) <==> t[k + 1] == Recorded(true)
    ensures t[k + 1] != Recorded(false)
  {
    LicensedSwitch(t, i);
    var last :| LastTestAt(t[..i], last, true);
    forall j | k < j < i && t[j].Recorded? ensures j == k + 1 { OutcomeFollows(t, i, k, j); }
    if t[k + 1].Recorded? { assert last == k + 1; }
  }

  /** An outcome after the last test sent comes straight after it. */
  lemma OutcomeFollows(t: seq<Local>, i: nat, k: nat, j: nat)
    requires Licensed(t) && i < |t| && LastSentAt(t[..i], k) && k < j < i && t[j].Recorded?
    ensures j == k + 1
  {
    assert LicensedAt(t, j);
    assert t[..j][j - 1] == t[..i][j - 1];
  }

  /** So in every interleaving: a switch was preceded by a success of the test its session
      sent last if and only if that test's report arrived. */
  lemma SwitchAfterLatestTest(moves: seq<Move>, s: string, i: nat, k: nat)
    requires Play(START, true, moves).Some?
    requires var t := RecordOf(Play(START, true, moves).value, s);
      i < |t| && t[i] == Sent(Switch) && LastSentAt(t[..i], k)
    ensures var t := RecordOf(Play(START, true, moves).value, s);
      t[k + 1] == Recorded(true) <==> exists j :: k < j < i && t[j].Recorded?
  {
    TestBeforeSwitch(moves, s);
    LatestAttempt(RecordOf(Play(START, true, moves).value, s), i, k);
  }

  /** And it does happen that it never arrives: then an earlier success stands, and a switch
      passes. */
  lemma LostTestKeepsLicence(g: Gate, q: nat)
    requires q in g.active && g.active[q].phase == Idle && g.active[q].session in g.testOk
    ensures var lost := [Call(q, Test), Return(q, None)];
      var switched := [Call(q, Switch), Reply(q, true), Return(q, Some(0))];
      var end := Play(g, true, lost + switched);
      Adds(g, end, q, [Sent(Test)] + [Answered(true), Sent(Switch)])
  {
    var s := g.active[q].session;
    PlainCall(g, q, Test, None);
    var m := [Call(q, Test), Return(q, None)];
    var b := Play(g, true, m).value;
    PlayTwo(g, true, m[0], m[1]);
    assert b.testOk == g.testOk;
    PlayConcat(g, true, m, [Call(q, Switch), Reply(q, true), Return(q, Some(0))]);
    AskedCall(b, q, Switch, Yes, Some(0));
    assert [Sent(Test)] + [] == [Sent(Test)];
    Assoc(RecordOf(g, s), [Sent(Test)], [Answered(true), Sent(Switch)]);
  }
}

/**
 One interactive query seen from the web hub. The thread that streams the daemon's messages
 stops at each question until another thread's request has queued an answer; a third may
 cancel and a fourth may close the socket, each at any moment between two atomic blocks.
 */
module QuerySession {
  import opened Options

  datatype Answer = Answer(confirmed: Option<bool>, value: Option<string>)

  /** What was written to the daemon after the query itself. */
  datatype Written = Respond(answer: Answer) | Cancel

  /** Where the streaming thread is. */
  datatype Reader =
    | Reading
    | Pausing                   // a question was passed on and its answer is awaited
    | Writing(answer: Answer)
    | Abandoning                // about to tell the daemon that nobody answers
    | Closing
    | Finished

  /** `history` is all that was ever queued, a none being a cancellation; `asked` holds, for
      each question, how much had been queued when it came. */
  datatype State = State(answers: seq<Option<Answer>>, closed: bool, sent: seq<Written>, reader: Reader,
                         history: seq<Option<Answer>>, asked: seq<nat>)

  const START := State([], false, [], Reading, [], [])

  /** What a line from the daemon is. */
  datatype Line = Question | Terminal | Other

  /** The atomic blocks of all threads. */
  datatype Step =
    | Put(entry: Option<Answer>)    // an answer, or a cancellation, is queued
    | CancelDaemon
    | Close
    | Receive(line: Line)
    | Break                         // the stream ended, failed, or is not listened to any more
    | Take
    | TimeOut
    | Write
    | Abandon
    | Finish

  function Sending(s: State, w: Written): State { if s.closed then s else s.(sent := s.sent + [w]) }

  /** One atomic block, or none when its thread is not there. */
  function Next(s: State, step: Step): Option<State> {
    match step
    case Put(entry) => Some(s.(answers := s.answers + [entry], history := s.history + [entry]))
    case CancelDaemon => Some(Sending(s, Cancel))
    case Close => Some(s.(closed := true))
    case Receive(line) =>
      if s.reader != Reading || s.closed then None
      else
        match line {
          case Question => Some(s.(reader := Pausing, asked := s.asked + [|s.history|]))
          case Terminal => Some(s.(reader := Closing))
          case Other => Some(s)
        }
    case Break => if s.reader.Finished? then None else Some(s.(reader := Closing))
    case Take =>
      if !s.reader.Pausing? || s.answers == [] then None
      else
        var rest := s.(answers := s.answers[1..]);
        Some(rest.(reader := if s.answers[0].None? then Abandoning else Writing(s.answers[0].value)))
    case TimeOut => if !s.reader.Pausing? || s.answers != [] then None else Some(s.(reader := Abandoning))
    case Write =>
      if !s.reader.Writing? then None else Some(Sending(s, Respond(s.reader.answer)).(reader := Reading))
    case Abandon => if !s.reader.Abandoning? then None else Some(Sending(s, Cancel).(reader := Closing))
    case Finish => if !s.reader.Closing? then None else Some(s.(closed := true, reader := Finished))
  }

  function Play(s: State, steps: seq<Step>): Option<State>
    decreases |steps|
  {
    if steps == [] then Some(s)
    else
      var next := Next(s, steps[0]);
      if next.None? then None else Play(next.value, steps[1..])
  }

  lemma {:induction false} PlayThen(s: State, steps: seq<Step>, step: Step)
    requires Play(s, steps).Some?
    ensures Play(s, steps + [step]) == Next(Play(s, steps).value, step)
    decreases |steps|
  {
    if steps == [] {
      assert [step][1..] == [];
    } else {
      assert (steps + [step])[1..] == steps[1..] + [step];
      PlayThen(Next(s, steps[0]).value, steps[1..], step);
    }
  }

  // ---------------------------------------------------------------- the session

  /** What happens in a turn: what the other threads do before it, the line that comes (none
      when the stream ends or fails), and, at a question, what the others do while it waits. */
  datatype Turn = Turn(before: seq<Foreign>, line: Option<Line>, meanwhile: seq<Foreign>)

  datatype Foreign = Answers(answer: Answer) | Cancels | Closes

  // What the session does with its turns, as a function of its state.

  function Stepped(s: State, step: Step): State
    requires Next(s, step).Some?
  {
    Next(s, step).value
  }

  function Intruded(s: State, f: Foreign): State {
    match f
    case Answers(a) => Stepped(s, Put(Some(a)))
    case Cancels => Stepped(Stepped(s, CancelDaemon), Put(None))
    case Closes => Stepped(s, Close)
  }

  function Interfered(s: State, others: seq<Foreign>): (r: State)
    ensures r.reader == s.reader && r.asked == s.asked
  {
    if others == [] then s else Intruded(Interfered(s, others[..|others| - 1]), others[|others| - 1])
  }

  /** The oldest entry answers the question; without one, or if it is a cancellation, the
      daemon is told and the stream ends. */
  function Exchanged(s: State): (r: State)
    requires s.reader.Pausing?
    ensures r.reader == if s.answers != [] && s.answers[0].Some? then Reading else Closing
  {
    if s.answers == [] then Stepped(Stepped(s, TimeOut), Abandon)
    else if s.answers[0].None? then Stepped(Stepped(s, Take), Abandon)
    else Stepped(Stepped(s, Take), Write)
  }

  function Handled(s: State, line: Line, meanwhile: seq<Foreign>): (r: State)
    requires s.reader.Reading? && !s.closed
    ensures r.reader.Reading? || r.reader.Closing?
  {
    if line == Question then Exchanged(Interfered(Stepped(s, Receive(line)), meanwhile)) else Stepped(s, Receive(line))
  }

  function TurnTaken(s: State, t: Turn): (r: State)
    requires s.reader.Reading?
    ensures r.reader.Reading? || (r.reader.Finished? && r.closed)
  {
    TurnFrom(Interfered(s, t.before), t)
  }

  /** The streaming thread's part of a turn. */
  function TurnFrom(met: State, t: Turn): (r: State)
    requires met.reader.Reading?
    ensures r.reader.Reading? || (r.reader.Finished? && r.closed)
  {
    var done := if !met.closed && t.line.Some? then Handled(met, t.line.value, t.meanwhile) else Stepped(met, Break);
    if done.reader.Closing? then Stepped(done, Finish) else done
  }

  function Streamed(s: State, turns: seq<Turn>): (r: State)
    requires s.reader.Reading?
    ensures r.reader.Reading? || (r.reader.Finished? && r.closed)
  {
    if turns == [] then s
    else
      var before := Streamed(s, turns[..|turns| - 1]);
      if before.reader.Reading? then TurnTaken(before, turns[|turns| - 1]) else before
  }

  class Session {
    var answers: seq<Option<Answer>>
    var closed: bool
    var sent: seq<Written>
    ghost var reader: Reader
    ghost var history: seq<Option<Answer>>
    ghost var asked: seq<nat>
    /** The atomic blocks so far. */
    ghost var steps: seq<Step>

    constructor ()
      ensures Valid() && Now() == START
    {
      answers, closed, sent, reader, history, asked, steps := [], false, [], Reading, [], [], [];
    }

    ghost function Now(): State
      reads this
    {
      State(answers, closed, sent, reader, history, asked)
    }

    /** The session is where its steps lead from the start. */
    ghost predicate Valid()
      reads this
    {
      Play(START, steps) == Some(Now())
    }

    ghost predicate Did(before: State, step: Step)
      reads this
    {
      Valid() && Some(Now()) == Next(before, step)
    }

    ghost method Mark(was: State, step: Step)
      requires Play(START, steps) == Some(was) && Next(was, step) == Some(Now())
      modifies this`steps
      ensures Valid() && Did(was, step)
    {
      PlayThen(START, steps, step);
      steps := steps + [step];
    }

    method Queue(entry: Option<Answer>)
      requires Valid()
      modifies this
      ensures Did(old(Now()), Put(entry))
    {
      ghost var was := Now();
      answers := answers + [entry];
      history := history + [entry];
      Mark(was, Put(entry));
    }

    method SendCancel()
      requires Valid()
      modifies this
      ensures Did(old(Now()), CancelDaemon)
    {
      ghost var was := Now();
      if !closed { sent := sent + [Cancel]; }
      Mark(was, CancelDaemon);
    }

    method Shut()
      requires Valid()
      modifies this
      ensures Did(old(Now()), Close)
    {
      ghost var was := Now();
      closed := true;
      Mark(was, Close);
    }

    /** The other threads' requests, in the order they come through. */
    method Interfere(others: seq<Foreign>)
      requires Valid()
      modifies this
      ensures Valid() && Now() == Interfered(old(Now()), others)
    {
      for i := 0 to |others|
        invariant Valid() && Now() == Interfered(old(Now()), others[..i])
      {
        assert others[..i + 1][..i] == others[..i];
        match others[i]
        case Answers(a) => Queue(Some(a));
        case Cancels => SendCancel(); Queue(None);
        case Closes => Shut();
      }
      assert others[..|others|] == others;
    }

    /** The streaming thread's own blocks at a question, once the others have moved. True when
        the stream goes on. */
    method Exchange() returns (more: bool)
      requires Valid() && reader == Pausing
      modifies this
      ensures Valid() && Now() == Exchanged(old(Now())) && (more <==> reader == Reading)
    {
      ghost var was := Now();
      more := false;
      if answers == [] {
        reader := Abandoning;
        Mark(was, TimeOut);
        GiveUp();
        return;
      }
      var entry := answers[0];
      answers := answers[1..];
      reader := if entry.None? then Abandoning else Writing(entry.value);
      Mark(was, Take);
      if entry.None? {
        GiveUp();
      } else {
        Reply(entry.value);
        more := true;
      }
    }

    method Reply(answer: Answer)
      requires Valid() && reader == Writing(answer)
      modifies this
      ensures Did(old(Now()), Write)
    {
      ghost var was := Now();
      if !closed { sent := sent + [Respond(answer)]; }
      reader := Reading;
      Mark(was, Write);
    }

    method GiveUp()
      requires Valid() && reader == Abandoning
      modifies this
      ensures Did(old(Now()), Abandon)
    {
      ghost var was := Now();
      if !closed { sent := sent + [Cancel]; }
      reader := Closing;
      Mark(was, Abandon);
    }

    /** A line from the daemon, passed on and, if it asks, answered. */
    method Handle(line: Line, meanwhile: seq<Foreign>) returns (more: bool)
      requires Valid() && reader == Reading && !closed
      modifies this
      ensures Valid() && Now() == Handled(old(Now()), line, meanwhile) && (more <==> reader == Reading)
    {
      ghost var was := Now();
      more := true;
      match line
      case Other => Mark(was, Receive(Other));
      case Terminal =>
        reader, more := Closing, false;
        Mark(was, Receive(Terminal));
      case Question =>
        reader, asked := Pausing, asked + [|history|];
        Mark(was, Receive(Question));
        Interfere(meanwhile);
        more := Exchange();
    }

    /** What the others do before the next line, the line, and the end if it was the last. */
    method TakeTurn(t: Turn) returns (more: bool)
      requires Valid() && reader == Reading
      modifies this
      ensures Valid() && Now() == TurnTaken(old(Now()), t) && (more <==> reader == Reading)
    {
      Interfere(t.before);
      more := false;
      if !closed && t.line.Some? {
        more := Handle(t.line.value, t.meanwhile);
      } else {
        BreakOff();
      }
      if !more { Cleanup(); }
    }

    /** Streams until the end, whatever the others do between its blocks; what it does with
        them is a run of the machine. */
    method Messages(turns: seq<Turn>)
      requires Valid() && reader == Reading
      modifies this
      ensures Valid() && Now() == Streamed(old(Now()), turns)
    {
      for i := 0 to |turns|
        invariant Valid() && reader == Reading && Now() == Streamed(old(Now()), turns[..i])
      {
        assert turns[..i + 1][..i] == turns[..i];
        var more := TakeTurn(turns[i]);
        if !more {
          StreamEnded(old(Now()), turns, i + 1);
          return;
        }
      }
      assert turns[..|turns|] == turns;
    }

    method BreakOff()
      requires Valid() && reader == Reading
      modifies this
      ensures Did(old(Now()), Break)
    {
      ghost var was := Now();
      reader := Closing;
      Mark(was, Break);
    }

    method Cleanup()
      requires Valid() && reader == Closing
      modifies this
      ensures Did(old(Now()), Finish)
    {
      ghost var was := Now();
      closed, reader := true, Finished;
      Mark(was, Finish);
    }
  }

  /** What has ended stays as it is. */
  lemma {:induction false} StreamEnded(s: State, turns: seq<Turn>, n: nat)
    requires s.reader.Reading? && n <= |turns| && !Streamed(s, turns[..n]).reader.Reading?
    ensures Streamed(s, turns) == Streamed(s, turns[..n])
    decreases |turns| - n
  {
    if n == |turns| {
      assert turns[..n] == turns;
    } else {
      assert turns[..n + 1][..n] == turns[..n];
      StreamEnded(s, turns, n + 1);
    }
  }

  // ---------------------------------------------------------------- what a turn comes to

  /** What another thread does, by the fields: an answer is queued; a cancellation is written, unless the
      session is closed, and queued; and a close closes. */
  lemma IntrudedMeans(s: State, f: Foreign)
    ensures var t := Intruded(s, f);
      var entry := if f.Answers? then [Some(f.answer)] else if f.Cancels? then [None] else [];
      && t.answers == s.answers + entry && t.history == s.history + entry
      && t.sent == s.sent + (if f.Cancels? && !s.closed then [Cancel] else [])
      && (t.closed <==> s.closed || f.Closes?) && t.reader == s.reader && t.asked == s.asked
  {
  }

  /** A question has come, and the others have moved while it waits. */
  function Waiting(met: State, meanwhile: seq<Foreign>): State {
    Interfered(met.(reader := Pausing, asked := met.asked + [|met.history|]), meanwhile)
  }

  /** Written by a thread that may write. */
  function WrittenTo(s: State, w: Written): seq<Written> { if s.closed then s.sent else s.sent + [w] }

  /** At a question the oldest entry is written and the stream goes on; if that is a cancellation, or
      there is none, the daemon is told. */
  lemma ExchangeMeans(s: State)
    requires s.reader.Pausing?
    ensures var t := Exchanged(s);
      && t.closed == s.closed && t.history == s.history && t.asked == s.asked
      && if s.answers != [] && s.answers[0].Some? then
           && t.reader == Reading && t.answers == s.answers[1..]
           && t.sent == WrittenTo(s, Respond(s.answers[0].value))
         else t.reader == Closing && t.sent == WrittenTo(s, Cancel)
  {
  }

  /** A turn without a question: after a closing line, without a line, or on a closed socket, the session
      is finished and closed and nothing was written; any other line changes nothing. */
  lemma QuietTurnMeans(met: State, t: Turn)
    requires met.reader.Reading?
    ensures met.closed || t.line == None || t.line == Some(Terminal) ==>
      TurnFrom(met, t) == met.(reader := Finished, closed := true)
    ensures !met.closed && t.line == Some(Other) ==> TurnFrom(met, t) == met
  {
  }

  lemma QuestionWaits(met: State, meanwhile: seq<Foreign>)
    requires met.reader.Reading? && !met.closed
    ensures Waiting(met, meanwhile).reader == Pausing
    ensures Handled(met, Question, meanwhile) == Exchanged(Waiting(met, meanwhile))
  {
    assert Next(met, Receive(Question)) == Some(met.(reader := Pausing, asked := met.asked + [|met.history|]));
  }

  /** A turn with one: it goes on after an answer, and otherwise the session is finished and closed, and
      the daemon was told unless it had been closed before. */
  lemma QuestionTurnMeans(met: State, t: Turn)
    requires met.reader.Reading? && !met.closed && t.line == Some(Question)
    ensures var w, done := Waiting(met, t.meanwhile), TurnFrom(met, t);
      if w.answers != [] && w.answers[0].Some? then
        && done.reader == Reading && done.closed == w.closed && done.answers == w.answers[1..]
        && done.sent == WrittenTo(w, Respond(w.answers[0].value))
      else done.reader == Finished && done.closed && done.sent == WrittenTo(w, Cancel)
  {
    QuestionWaits(met, t.meanwhile);
    ExchangeMeans(Waiting(met, t.meanwhile));
  }

  /** A closing line is the last that is looked at: the session is finished and closed. */
  lemma TerminalIsLast(s: State, turns: seq<Turn>, k: nat)
    requires s.reader.Reading? && k < |turns| && turns[k].line == Some(Terminal)
    ensures var end := Streamed(s, turns);
      end.reader == Finished && end.closed && end == Streamed(s, turns[..k + 1])
  {
    assert turns[..k + 1][..k] == turns[..k];
    var before := Streamed(s, turns[..k]);
    if before.reader.Reading? { QuietTurnMeans(Interfered(before, turns[k].before), turns[k]); }
    StreamEnded(s, turns, k + 1);
  }

  // ---------------------------------------------------------------- every interleaving

  /** The answers among what was written. */
  function Responses(sent: seq<Written>): seq<Answer> {
    if sent == [] then []
    else
      var last := sent[|sent| - 1];
      Responses(sent[..|sent| - 1]) + if last.Respond? then [last.answer] else []
  }

  /** How many questions have had their entry taken. */
  function Taken(s: State): int { |s.asked| - if s.reader.Pausing? then 1 else 0 }

  predicate Live(r: Reader) { r.Reading? || r.Pausing? || r.Writing? }

  /** The `k`-th answer written is the `k`-th entry ever queued. */
  ghost predicate InOrder(responses: seq<Answer>, history: seq<Option<Answer>>) {
    |responses| <= |history| && forall k :: 0 <= k < |responses| ==> history[k] == Some(responses[k])
  }

  /** While the stream goes on, each question before this one has had one entry, in order. */
  ghost predicate OneEach(s: State, written: nat) {
    && 0 <= Taken(s) <= |s.history| && s.answers == s.history[Taken(s)..]
    && written <= Taken(s)
    && (s.reader.Writing? ==> 0 < Taken(s) && s.history[Taken(s) - 1] == Some(s.reader.answer))
    && (!s.closed ==> written == Taken(s) - if s.reader.Writing? then 1 else 0)
  }

  ghost predicate Inv(s: State) {
    && InOrder(Responses(s.sent), s.history)
    && |Responses(s.sent)| <= |s.asked|
    && (Live(s.reader) ==> OneEach(s, |Responses(s.sent)|))
  }

  lemma CancelIsNoResponse(sent: seq<Written>)
    ensures Responses(sent + [Cancel]) == Responses(sent)
  {
    assert (sent + [Cancel])[..|sent|] == sent;
  }

  lemma RespondIsOne(sent: seq<Written>, a: Answer)
    ensures Responses(sent + [Respond(a)]) == Responses(sent) + [a]
  {
    assert (sent + [Respond(a)])[..|sent|] == sent;
  }

  /** A step that takes, queues and answers nothing keeps the invariant. */
  lemma QuietKeepsInv(s: State, t: State)
    requires Inv(s) && t.answers == s.answers && t.history == s.history && t.asked == s.asked
    requires Responses(t.sent) == Responses(s.sent) && (s.closed ==> t.closed)
    requires t.reader == s.reader || !Live(t.reader)
    ensures Inv(t)
  {
  }

  lemma PutKeepsInv(s: State, entry: Option<Answer>)
    requires Inv(s)
    ensures Inv(Next(s, Put(entry)).value)
  {
    var more := s.history + [entry];
    if Live(s.reader) { assert more[Taken(s)..] == s.history[Taken(s)..] + [entry]; }
    assert InOrder(Responses(s.sent), more);
  }

  lemma ReceiveKeepsInv(s: State, line: Line)
    requires Inv(s) && s.reader == Reading && !s.closed
    ensures Inv(Next(s, Receive(line)).value)
  {
    var t := Next(s, Receive(line)).value;
    if line == Question { assert Taken(t) == Taken(s); } else { QuietKeepsInv(s, t); }
  }

  lemma TakeKeepsInv(s: State)
    requires Inv(s) && s.reader == Pausing && s.answers != []
    ensures Inv(Next(s, Take).value)
  {
    var t := Next(s, Take).value;
    assert s.answers[0] == s.history[Taken(s)];
    if Live(t.reader) {
      assert Taken(t) == Taken(s) + 1;
      assert t.answers == s.history[Taken(s) + 1..];
    }
  }

  lemma WriteKeepsInv(s: State)
    requires Inv(s) && s.reader.Writing?
    ensures Inv(Next(s, Write).value)
  {
    RespondIsOne(s.sent, s.reader.answer);
    assert InOrder(Responses(Next(s, Write).value.sent), s.history);
  }

  predicate Quiet(step: Step) {
    step.CancelDaemon? || step.Abandon? || step.Close? || step.Break? || step.TimeOut? || step.Finish?
  }

  lemma QuietIsQuiet(s: State, step: Step)
    requires Next(s, step).Some? && Quiet(step)
    ensures var t := Next(s, step).value;
      && t.answers == s.answers && t.history == s.history && t.asked == s.asked && (s.closed ==> t.closed)
      && (t.sent == s.sent || t.sent == s.sent + [Cancel]) && (t.reader == s.reader || !Live(t.reader))
  {
  }

  lemma OtherKeepsInv(s: State, step: Step)
    requires Inv(s) && Next(s, step).Some? && Quiet(step)
    ensures Inv(Next(s, step).value)
  {
    QuietIsQuiet(s, step);
    CancelIsNoResponse(s.sent);
    QuietKeepsInv(s, Next(s, step).value);
  }

  lemma StepKeepsInv(s: State, step: Step)
    requires Inv(s) && Next(s, step).Some?
    ensures Inv(Next(s, step).value)
  {
    match step
    case Receive(line) => ReceiveKeepsInv(s, line);
    case Take => TakeKeepsInv(s);
    case Write => WriteKeepsInv(s);
    case Put(entry) => PutKeepsInv(s, entry);
    case _ => OtherKeepsInv(s, step);
  }

  lemma {:induction false} PlayKeepsInv(s: State, steps: seq<Step>)
    requires Inv(s) && Play(s, steps).Some?
    ensures Inv(Play(s, steps).value)
    decreases |steps|
  {
    if steps != [] {
      StepKeepsInv(s, steps[0]);
      PlayKeepsInv(Next(s, steps[0]).value, steps[1..]);
    }
  }

  /** In every interleaving, the answers written are the first ones queued, in their order,
      at most one for each question, and none that was queued behind a cancellation. */
  lemma AnswersInOrder(steps: seq<Step>)
    requires Play(START, steps).Some?
    ensures var s := Play(START, steps).value;
      InOrder(Responses(s.sent), s.history) && |Responses(s.sent)| <= |s.asked|
  {
    PlayKeepsInv(START, steps);
  }

  /** Once closed, nothing more is written, and the session stays closed. */
  lemma {:induction false} NothingAfterClose(s: State, steps: seq<Step>)
    requires s.closed && Play(s, steps).Some?
    ensures Play(s, steps).value.closed && Play(s, steps).value.sent == s.sent
    decreases |steps|
  {
    if steps != [] { NothingAfterClose(Next(s, steps[0]).value, steps[1..]); }
  }

  lemma StaysSilent(s: State, step: Step)
    requires !Live(s.reader) && Next(s, step).Some?
    ensures !Live(Next(s, step).value.reader) && Responses(Next(s, step).value.sent) == Responses(s.sent)
  {
    CancelIsNoResponse(s.sent);
  }

  /** Once a cancellation is taken, or nobody answered in time, no answer is written. */
  lemma {:induction false} NothingAfterCancel(s: State, steps: seq<Step>)
    requires !Live(s.reader) && Play(s, steps).Some?
    ensures !Live(Play(s, steps).value.reader)
    ensures Responses(Play(s, steps).value.sent) == Responses(s.sent)
    decreases |steps|
  {
    if steps != [] {
      StaysSilent(s, steps[0]);
      NothingAfterCancel(Next(s, steps[0]).value, steps[1..]);
    }
  }

  /** After a closing line no question is passed on and no answer written, in any interleaving. */
  lemma {:induction false} NothingAfterTerminal(s: State, t: State, steps: seq<Step>)
    requires Next(s, Receive(Terminal)) == Some(t) && Play(t, steps).Some?
    ensures var end := Play(t, steps).value;
      !Live(end.reader) && Responses(end.sent) == Responses(s.sent) && end.asked == s.asked
  {
    NothingAfterCancel(t, steps);
    NothingAsked(t, steps);
  }

  lemma {:induction false} NothingAsked(s: State, steps: seq<Step>)
    requires !Live(s.reader) && Play(s, steps).Some?
    ensures Play(s, steps).value.asked == s.asked
    decreases |steps|
  {
    if steps != [] {
      StaysSilent(s, steps[0]);
      NothingAsked(Next(s, steps[0]).value, steps[1..]);
    }
  }

  /** Where nobody answers, what the thread does next, if the stream does not break then, is to tell the
      daemon, unless the session is closed. */
  lemma AbandonedIsTold(s: State, step: Step)
    requires s.reader == Abandoning && Next(s, step).Some? && Next(s, step).value.reader != Abandoning
    ensures step == Abandon || step == Break
    ensures step == Abandon ==> Next(s, step).value == s.(reader := Closing, sent := WrittenTo(s, Cancel))
  {
  }

  /** The question that comes in `s`, and what has happened by `end`: its answer is written. */
  ghost predicate QuestionAnswered(s: State, later: seq<Step>, end: State) {
    && Next(s, Receive(Question)).Some?
    && Play(Next(s, Receive(Question)).value, later) == Some(end)
    && |s.asked| < |Responses(end.sent)|
  }

  /** An answer belongs to its question if and only if nothing was queued when the question
      came; an entry left over from before is what the question gets, seen or not. */
  lemma OwnAnswer(steps: seq<Step>, s: State, later: seq<Step>, end: State)
    requires Play(START, steps) == Some(s) && QuestionAnswered(s, later, end)
    ensures var k := |s.asked|;
      && k < |end.history| && end.history[k] == Some(Responses(end.sent)[k])
      && (|s.history| <= k <==> s.answers == [])
      && (s.answers != [] ==> Some(Responses(end.sent)[k]) == s.answers[0])
  {
    PlayKeepsInv(START, steps);
    var asked := Next(s, Receive(Question)).value;
    StepKeepsInv(s, Receive(Question));
    PlayKeepsInv(asked, later);
    HistoryGrows(asked, later);
    OldestIsNext(s, end);
  }

  lemma PlayFirst(s: State, step: Step, t: State, rest: seq<Step>)
    requires Next(s, step) == Some(t)
    ensures Play(s, [step] + rest) == Play(t, rest)
  {
    assert ([step] + rest)[1..] == rest;
  }

  /** It does happen: an answer queued before any question came is what the first one gets. */
  lemma StaleAnswer(a: Answer)
    ensures Play(START, [Put(Some(a))] + ([Receive(Question)] + ([Take] + ([Write] + []))))
         == Some(State([], false, [Respond(a)], Reading, [Some(a)], [1]))
  {
    var queued := State([Some(a)], false, [], Reading, [Some(a)], []);
    var paused := queued.(reader := Pausing, asked := [1]);
    var writing := paused.(answers := [], reader := Writing(a));
    var done := writing.(sent := [Respond(a)], reader := Reading);
    assert START.answers + [Some(a)] == [Some(a)] && queued.asked + [1] == [1] && paused.answers[1..] == [];
    assert writing.sent + [Respond(a)] == [Respond(a)];
    PlayFirst(writing, Write, done, []);
    PlayFirst(paused, Take, writing, [Write] + []);
    PlayFirst(queued, Receive(Question), paused, [Take] + ([Write] + []));
    PlayFirst(START, Put(Some(a)), queued, [Receive(Question)] + ([Take] + ([Write] + [])));
  }

  lemma OldestIsNext(s: State, end: State)
    requires Inv(s) && s.reader == Reading && Inv(end) && s.history <= end.history
    requires |s.asked| < |Responses(end.sent)|
    ensures var k := |s.asked|;
      && k < |end.history| && end.history[k] == Some(Responses(end.sent)[k])
      && (|s.history| <= k <==> s.answers == [])
      && (s.answers != [] ==> Some(Responses(end.sent)[k]) == s.answers[0])
  {
  }

  lemma {:induction false} HistoryGrows(s: State, steps: seq<Step>)
    requires Play(s, steps).Some?
    ensures s.history <= Play(s, steps).value.history
    decreases |steps|
  {
    if steps != [] { HistoryGrows(Next(s, steps[0]).value, steps[1..]); }
  }
}

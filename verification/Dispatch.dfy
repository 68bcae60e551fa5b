/**
 The life of one query, as a function of all that happens to it. Every point where the daemon
 waits is a point where the environment moves: readiness flips, a question is answered, a
 model speaks, a call fails or is cancelled, or nothing ever comes back.
 */
module Dispatch {
  import opened Options
  import opened Strings
  import opened Routing
  import opened QueryLog

  // ---------------------------------------------------------------- the environment

  /** How a wait ends: it resumes, raises an error the daemon knows or one it does not, is
      cancelled, or never ends. */
  datatype Fate = Resumes | Known | Crash | Cancel | Never

  /** How the send of a closing message ended: one of the query's own, or the one that
      answers for what escaped from it. */
  datatype End = Own(fate: Fate) | Rescue(fate: Fate)

  /** What a model or a helper does next: it says something, has something done, with or
      without a question to the person, or ends. */
  datatype Turn = Piece(text: string) | Asks | Looks | Ends

  /** A wait: how it ends, what it brings, and whether the local model is ready after it. */
  datatype Await = Await(fate: Fate, yes: bool, turn: Turn, text: string, items: seq<string>, localReady: bool)

  const NEVER := Await(Never, false, Ends, "", [], false)

  datatype Config = Config(hasLocal: bool, default: Chain)

  /** A query, with what its text parses to and what the classifier says of it. */
  datatype Query = Query(text: string, explicit: Option<Chain>, hints: set<Hint>, matched: bool, remedy: bool,
                         mutation: bool, action: Option<Intended>)

  /** `remoteReady` is set once, when the daemon starts; `scrub` is the deterministic scrub;
      `awaits` are the waits in their order, after which none ends. */
  datatype Env = Env(cfg: Config, query: Query, remoteReady: bool, scrub: string -> string, awaits: seq<Await>)

  function Wanted(e: Env): Wish {
    Wish(ResolveDesired(e.query.explicit, if e.cfg.hasLocal then e.query.hints else {}, e.cfg.default).0,
         e.remoteReady, e.cfg.hasLocal,
         if e.query.remedy then Remedy else if e.query.mutation then Change(e.query.action) else Read,
         e.query.matched, e.query.text, e.scrub)
  }

  /** `ends` says how the sends of the closing messages ended. */
  datatype State = State(at: nat, localReady: bool, log: seq<Event>, ends: seq<End>)

  // ---------------------------------------------------------------- the query as a function

  datatype Met = Met(s: State, a: Await)
  datatype Out = Out(s: State, fate: Fate)
  datatype Replied = Replied(s: State, fate: Fate, yes: bool)
  datatype Told = Told(s: State, fate: Fate, text: string)
  datatype Chosen = Chosen(s: State, fate: Fate, chain: Option<Chain>)

  function Waited(e: Env, s: State): Met {
    if s.at < |e.awaits| then Met(s.(at := s.at + 1, localReady := e.awaits[s.at].localReady), e.awaits[s.at])
    else Met(s, NEVER)
  }

  function Noted(s: State, ev: Event): State { s.(log := s.log + [ev]) }

  function Sent(e: Env, s: State, ev: Event): Out {
    var m := Waited(e, Noted(s, ev));
    Out(m.s, m.a.fate)
  }

  /** A closing message. */
  function Closed(e: Env, s: State, ev: Event, rescue: bool): Out {
    var m := Waited(e, Noted(s, ev));
    Out(m.s.(ends := s.ends + [if rescue then Rescue(m.a.fate) else Own(m.a.fate)]), m.a.fate)
  }

  /** To be cancelled while the answer is awaited is a no. */
  function Heard(e: Env, s: State): Replied {
    var m := Waited(e, s);
    if m.a.fate != Resumes && m.a.fate != Cancel then Replied(m.s, m.a.fate, false)
    else
      var yes := m.a.fate == Resumes && m.a.yes;
      Replied(Noted(m.s, Answered(yes)), Resumes, yes)
  }

  function Confirmed(e: Env, s: State, topic: Topic): Replied {
    var o := Sent(e, s, Ask(topic));
    if o.fate != Resumes then Replied(o.s, o.fate, false) else Heard(e, o.s)
  }

  /** Which model speaks, and whether the query was escalated to it. */
  datatype Voice = Here | Away(escalated: bool)

  /** What a tool made goes to the remote model, scrubbed if the query was escalated. */
  function Handed(e: Env, s: State, v: Voice, result: string): State
    requires v.Away?
  {
    Noted(s, Returned(result, if v.escalated then e.scrub(result) else result))
  }

  /** One turn of a model: how it came back, what it said, and whether there is more to come. */
  datatype Uttered = Uttered(s: State, fate: Fate, text: string, more: bool)

  /** A tool at work: what it makes is awaited, and handed over if it comes. */
  function Used(e: Env, s: State, v: Voice): Uttered
    requires v.Away?
  {
    var m := Waited(e, s);
    if m.a.fate != Resumes then Uttered(m.s, m.a.fate, "", false)
    else Uttered(Handed(e, m.s, v, m.a.text), Resumes, "", true)
  }

  /** A piece of the answer is sent on; a tool is put to work at once, or, as a rebuild is, only
      on a yes to a question of its own. The local model has no tools. */
  function Turned(e: Env, s: State, v: Voice, turn: Turn): (u: Uttered)
    ensures s.at <= u.s.at && (u.more ==> u.fate == Resumes)
  {
    match turn
    case Ends => Uttered(s, Resumes, "", false)
    case Piece(text) =>
      var o := Sent(e, s, Delta(text));
      Uttered(o.s, o.fate, text, o.fate == Resumes)
    case Asks => if v.Here? then Uttered(s, Resumes, "", true) else Permitted(e, s, v)
    case Looks => if v.Here? then Uttered(s, Resumes, "", true) else Used(e, s, v)
  }

  /** A tool that asks first. */
  function Permitted(e: Env, s: State, v: Voice): (u: Uttered)
    requires v.Away?
    ensures s.at <= u.s.at && (u.more ==> u.fate == Resumes)
  {
    var r := Confirmed(e, s, Tool);
    if r.fate != Resumes then Uttered(r.s, r.fate, "", false)
    else if r.yes then Used(e, r.s, v)
    else Uttered(Handed(e, r.s, v, NOT_DONE), Resumes, "", true)
  }

  /** What a model does next. */
  function Spoken(e: Env, s: State, v: Voice): (u: Uttered)
    ensures u.more ==> s.at < |e.awaits| && s.at < u.s.at && u.fate == Resumes
  {
    var m := Waited(e, s);
    if m.a.fate != Resumes then Uttered(m.s, m.a.fate, "", false) else Turned(e, m.s, v, m.a.turn)
  }

  /** All that a model says, until it ends. */
  function Streamed(e: Env, s: State, said: string, v: Voice): Told
    decreases |e.awaits| - s.at
  {
    var u := Spoken(e, s, v);
    if u.more then Streamed(e, u.s, said + u.text, v) else Told(u.s, u.fate, said + u.text)
  }

  /** Both sides of the exchange go to the history, and the whole of it to the log. */
  function Kept(e: Env, s: State, chain: Chain, text: string, answer: string, escalated: bool): Out {
    var user := Waited(e, s);
    if user.a.fate != Resumes then Out(user.s, user.a.fate)
    else
      var assistant := Waited(e, Noted(user.s, Remembered(true, text)));
      if assistant.a.fate != Resumes then Out(assistant.s, assistant.a.fate)
      else
        var kept := Waited(e, Noted(assistant.s, Remembered(false, answer)));
        if kept.a.fate != Resumes then Out(kept.s, kept.a.fate)
        else Out(Noted(kept.s, Recorded(chain, text, answer, escalated)), Resumes)
  }

  function VoiceOf(chain: Chain, escalated: bool): Voice { if chain == Local then Here else Away(escalated) }

  /** A model has been called: its answer, the records, and the closing message. */
  function Concluded(e: Env, s: State, chain: Chain, text: string, escalated: bool): Out {
    var t := Streamed(e, s, "", VoiceOf(chain, escalated));
    if t.fate != Resumes then Out(t.s, t.fate)
    else
      var k := Kept(e, t.s, chain, text, t.text, escalated);
      if k.fate != Resumes then k else Closed(e, k.s, Done(Some(chain)), false)
  }

  function SaidAndClosed(e: Env, s: State, text: string): Out {
    var o := Sent(e, s, Delta(text));
    if o.fate != Resumes then o else Closed(e, o.s, Done(Some(Local)), false)
  }

  function RanLocal(e: Env, s: State): Out {
    if !(e.query.matched && e.cfg.hasLocal) then
      Concluded(e, Noted(s, AskedHere(e.query.text, "")), Local, e.query.text, false)
    else
      var m := Waited(e, s);
      if m.a.fate != Resumes then Out(m.s, m.a.fate)
      else if Strip(m.a.text) == "" then SaidAndClosed(e, m.s, NO_FACTS)
      else Concluded(e, Noted(m.s, AskedHere(e.query.text, m.a.text)), Local, e.query.text, false)
  }

  const BETWEEN := "\n\n"

  /** The remote chain; a text given replaces the query's, and then nothing goes with it. */
  function RanRemote(e: Env, s: State, text: Option<string>): Out {
    if text.Some? then Concluded(e, Noted(s, LeftDevice(text.value, [], "")), Remote, text.value, true)
    else
      var recent := Waited(e, s);
      if recent.a.fate != Resumes then Out(recent.s, recent.a.fate)
      else
        var context := Waited(e, recent.s);
        if context.a.fate != Resumes then Out(context.s, context.a.fate)
        else
          var left := LeftDevice(e.query.text, recent.a.items, BETWEEN + context.a.text);
          Concluded(e, Noted(context.s, left), Remote, e.query.text, false)
  }

  function StayedLocal(e: Env, s: State, localFallback: bool, text: string): Out {
    if localFallback && e.cfg.hasLocal then RanLocal(e, s) else SaidAndClosed(e, s, text)
  }

  /** The local model rewrites the text; without one the deterministic scrub stands. */
  function Cleaned(e: Env, s: State): Told {
    if !e.cfg.hasLocal then Told(s, Resumes, e.scrub(e.query.text))
    else
      var m := Waited(e, s);
      Told(m.s, m.a.fate, m.a.text)
  }

  function OfferedEscalation(e: Env, s: State, localFallback: bool): Out {
    if !e.remoteReady then StayedLocal(e, s, localFallback, NO_FRONTIER)
    else
      var t := Cleaned(e, s);
      if t.fate != Resumes then Out(t.s, t.fate) else Previewing(e, Noted(t.s, Redacted(t.text)), t.text, localFallback)
  }

  function Previewing(e: Env, s: State, shown: string, localFallback: bool): Out {
    var r := Confirmed(e, s, Escalate(shown));
    if r.fate != Resumes then Out(r.s, r.fate)
    else if r.yes then RanRemote(e, r.s, Some(shown))
    else StayedLocal(e, r.s, localFallback, DECLINED)
  }

  function WaitedLocal(e: Env, s: State): Chosen {
    var m := Waited(e, s);
    Chosen(m.s, m.a.fate, if m.a.fate == Resumes then Some(Local) else None)
  }

  /** The chain to run, or none when the query is over or something was raised. */
  function AppliedDecision(e: Env, s: State, d: Decision): Chosen {
    match d.step
    case Proceed => Chosen(s, Resumes, Some(d.chain))
    case Unavailable =>
      var o := Closed(e, s, Error, false);
      Chosen(o.s, o.fate, None)
    case WaitLocal =>
      var o := Sent(e, s, Status);
      if o.fate != Resumes then Chosen(o.s, o.fate, None) else WaitedLocal(e, o.s)
    case ConfirmRemote =>
      var o := Sent(e, s, Status);
      if o.fate != Resumes then Chosen(o.s, o.fate, None) else ConfirmedOther(e, o.s, d.chain)
  }

  /** The question whether to use the other chain, which alone is ready. A yes means the
      remote chain, whichever was offered. */
  function ConfirmedOther(e: Env, s: State, offered: Chain): Chosen {
    var r := Confirmed(e, s, Route(offered));
    if r.fate != Resumes then Chosen(r.s, r.fate, None)
    else if r.yes then Chosen(r.s, Resumes, Some(Remote))
    else if r.s.localReady then Chosen(r.s, Resumes, Some(Local))
    else WaitedLocal(e, r.s)
  }

  /** A change of the package list or a restart: any number of status lines and questions,
      then a result, which is kept and told. */
  function Carried(e: Env, s: State): Out
    decreases |e.awaits| - s.at
  {
    var m := Waited(e, s);
    if m.a.fate != Resumes || s.at >= |e.awaits| then Out(m.s, m.a.fate)
    else
      match m.a.turn
      case Ends => Reported(e, m.s, m.a.text)
      case Piece(_) =>
        var o := Sent(e, m.s, Status);
        if o.fate != Resumes then o else Carried(e, o.s)
      case Asks =>
        var r := Confirmed(e, m.s, Fix);
        if r.fate != Resumes then Out(r.s, r.fate) else Carried(e, r.s)
      case Looks => Carried(e, m.s)
  }

  function Reported(e: Env, s: State, result: string): Out {
    var kept := Waited(e, s);
    if kept.a.fate != Resumes then Out(kept.s, kept.a.fate) else SaidAndClosed(e, Noted(kept.s, Acted(result)), result)
  }

  function RanChange(e: Env, s: State): Out {
    match e.query.action
    case Some(AppChange) => Carried(e, s)
    case Some(Toggle) => SaidAndClosed(e, s, NO_TOGGLE)
    case None => OfferedEscalation(e, s, false)
  }

  function RanRead(e: Env, s: State): Out {
    var c := AppliedDecision(e, s, Resolve(Wanted(e).desired, s.localReady, e.remoteReady));
    if c.chain.None? then Out(c.s, c.fate)
    else if c.chain.value == Remote then RanRemote(e, c.s, None)
    else Assessed(e, c.s)
  }

  /** The local model judges whether it can answer, if there is anyone else to ask. */
  function Assessed(e: Env, s: State): Out {
    if !(e.remoteReady && e.cfg.hasLocal) then RanLocal(e, s)
    else
      var unsure := Waited(e, s);
      if unsure.a.fate != Resumes then Out(unsure.s, unsure.a.fate)
      else if unsure.a.yes then OfferedEscalation(e, unsure.s, true)
      else RanLocal(e, unsure.s)
  }

  /** The local model, warmed up if need be, says what the query is about. */
  function Classified(e: Env, s: State): Out {
    if !e.cfg.hasLocal then Out(s, Resumes)
    else
      var o := if s.localReady then Out(s, Resumes) else Sent(e, s, Status);
      if o.fate != Resumes then o
      else
        var m := Waited(e, o.s);
        Out(m.s, m.a.fate)
  }

  function RanQuery(e: Env, s: State): Out {
    if e.query.remedy then Carried(e, s)
    else
      var o := Classified(e, s);
      if o.fate != Resumes then o else if e.query.mutation then RanChange(e, o.s) else RanRead(e, o.s)
  }

  /** How the query itself came back, and what then came of it. */
  datatype Life = Life(inner: Fate, s: State, fate: Fate)

  /** The session's lock, the query, and an answer for whatever escapes from it. */
  function Dispatched(e: Env, s: State): Life {
    var lock := Waited(e, s);
    if lock.a.fate != Resumes then Life(lock.a.fate, lock.s, lock.a.fate) else Rescued(e, RanQuery(e, lock.s))
  }

  function Rescued(e: Env, o: Out): Life {
    if o.fate == Resumes || o.fate == Never then Life(o.fate, o.s, o.fate)
    else
      var c := Closed(e, o.s, if o.fate == Cancel then Done(None) else Error, true);
      Life(o.fate, c.s, c.fate)
  }

  function Fresh(localReady: bool): State { State(0, localReady, [], []) }

  // ---------------------------------------------------------------- the query as it is run

  class Dispatcher {
    const env: Env
    var at: nat
    var localReady: bool
    var log: seq<Event>
    var ends: seq<End>

    constructor (env: Env, localReady: bool)
      ensures this.env == env && Now() == Fresh(localReady)
    {
      this.env, this.localReady, at, log, ends := env, localReady, 0, [], [];
    }

    ghost function Now(): State
      reads this
    {
      State(at, localReady, log, ends)
    }

    method Wait() returns (a: Await)
      modifies this
      ensures Met(Now(), a) == Waited(env, old(Now()))
    {
      if at >= |env.awaits| { return NEVER; }
      a := env.awaits[at];
      at, localReady := at + 1, a.localReady;
    }

    method Note(ev: Event)
      modifies this
      ensures Now() == Noted(old(Now()), ev)
    {
      log := log + [ev];
    }

    method Send(ev: Event) returns (fate: Fate)
      modifies this
      ensures Out(Now(), fate) == Sent(env, old(Now()), ev)
    {
      Note(ev);
      var a := Wait();
      fate := a.fate;
    }

    method Close(ev: Event, rescue: bool) returns (fate: Fate)
      modifies this
      ensures Out(Now(), fate) == Closed(env, old(Now()), ev, rescue)
    {
      Note(ev);
      var a := Wait();
      fate := a.fate;
      ends := ends + [if rescue then Rescue(fate) else Own(fate)];
    }

    method AwaitResponse() returns (fate: Fate, yes: bool)
      modifies this
      ensures Replied(Now(), fate, yes) == Heard(env, old(Now()))
    {
      var a := Wait();
      if a.fate != Resumes && a.fate != Cancel { return a.fate, false; }
      fate, yes := Resumes, a.fate == Resumes && a.yes;
      Note(Answered(yes));
    }

    method Confirm(topic: Topic) returns (fate: Fate, yes: bool)
      modifies this
      ensures Replied(Now(), fate, yes) == Confirmed(env, old(Now()), topic)
    {
      yes := false;
      fate := Send(Ask(topic));
      if fate == Resumes { fate, yes := AwaitResponse(); }
    }

    method HandOver(v: Voice, result: string)
      requires v.Away?
      modifies this
      ensures Now() == Handed(env, old(Now()), v, result)
    {
      Note(Returned(result, if v.escalated then env.scrub(result) else result));
    }

    method Use(v: Voice) returns (fate: Fate, text: string, more: bool)
      requires v.Away?
      modifies this
      ensures Uttered(Now(), fate, text, more) == Used(env, old(Now()), v)
    {
      var a := Wait();
      fate, text, more := a.fate, "", a.fate == Resumes;
      if more { HandOver(v, a.text); }
    }

    method Permit(v: Voice) returns (fate: Fate, text: string, more: bool)
      requires v.Away?
      modifies this
      ensures Uttered(Now(), fate, text, more) == Permitted(env, old(Now()), v)
    {
      var yes;
      text, more := "", false;
      fate, yes := Confirm(Tool);
      if fate != Resumes { return; }
      if yes {
        fate, text, more := Use(v);
      } else {
        HandOver(v, NOT_DONE);
        more := true;
      }
    }

    method Speak(v: Voice) returns (fate: Fate, text: string, more: bool)
      modifies this
      ensures Uttered(Now(), fate, text, more) == Spoken(env, old(Now()), v)
    {
      var a := Wait();
      fate, text, more := a.fate, "", false;
      if fate != Resumes { return; }
      match a.turn
      case Ends =>
      case Piece(piece) =>
        text := piece;
        fate := Send(Delta(piece));
        more := fate == Resumes;
      case Asks =>
        if v.Here? { more := true; } else { fate, text, more := Permit(v); }
      case Looks =>
        if v.Here? { more := true; } else { fate, text, more := Use(v); }
    }

    method Stream(v: Voice) returns (fate: Fate, answer: string)
      modifies this
      ensures Told(Now(), fate, answer) == Streamed(env, old(Now()), "", v)
    {
      fate, answer := Resumes, "";
      var more := true;
      while more
        invariant if more then Streamed(env, Now(), answer, v) == Streamed(env, old(Now()), "", v)
                  else Told(Now(), fate, answer) == Streamed(env, old(Now()), "", v)
        decreases |env.awaits| - at, more
      {
        var text;
        ghost var before := Now();
        fate, text, more := Speak(v);
        assert Spoken(env, before, v) == Uttered(Now(), fate, text, more);
        answer := answer + text;
      }
    }

    method Record(chain: Chain, text: string, answer: string, escalated: bool) returns (fate: Fate)
      modifies this
      ensures Out(Now(), fate) == Kept(env, old(Now()), chain, text, answer, escalated)
    {
      var user := Wait();
      if user.fate != Resumes { return user.fate; }
      Note(Remembered(true, text));
      var assistant := Wait();
      if assistant.fate != Resumes { return assistant.fate; }
      Note(Remembered(false, answer));
      var kept := Wait();
      fate := kept.fate;
      if fate == Resumes { Note(Recorded(chain, text, answer, escalated)); }
    }

    method Conclude(chain: Chain, text: string, escalated: bool) returns (fate: Fate)
      modifies this
      ensures Out(Now(), fate) == Concluded(env, old(Now()), chain, text, escalated)
    {
      var answer;
      fate, answer := Stream(VoiceOf(chain, escalated));
      if fate != Resumes { return; }
      fate := Record(chain, text, answer, escalated);
      if fate != Resumes { return; }
      fate := Close(Done(Some(chain)), false);
    }

    method SayAndClose(text: string) returns (fate: Fate)
      modifies this
      ensures Out(Now(), fate) == SaidAndClosed(env, old(Now()), text)
    {
      fate := Send(Delta(text));
      if fate == Resumes { fate := Close(Done(Some(Local)), false); }
    }

    method RunLocal() returns (fate: Fate)
      modifies this
      ensures Out(Now(), fate) == RanLocal(env, old(Now()))
    {
      var facts := "";
      if env.query.matched && env.cfg.hasLocal {
        var a := Wait();
        if a.fate != Resumes { return a.fate; }
        facts := a.text;
        if Strip(facts) == "" {
          fate := SayAndClose(NO_FACTS);
          return;
        }
      }
      Note(AskedHere(env.query.text, facts));
      fate := Conclude(Local, env.query.text, false);
    }

    method RunRemote(text: Option<string>) returns (fate: Fate)
      modifies this
      ensures Out(Now(), fate) == RanRemote(env, old(Now()), text)
    {
      var sent := if text.Some? then text.value else env.query.text;
      var history: seq<string>, context := [], "";
      if text.None? {
        var recent := Wait();
        if recent.fate != Resumes { return recent.fate; }
        var assembled := Wait();
        if assembled.fate != Resumes { return assembled.fate; }
        history, context := recent.items, BETWEEN + assembled.text;
      }
      Note(LeftDevice(sent, history, context));
      fate := Conclude(Remote, sent, text.Some?);
    }

    method StayLocal(localFallback: bool, text: string) returns (fate: Fate)
      modifies this
      ensures Out(Now(), fate) == StayedLocal(env, old(Now()), localFallback, text)
    {
      if localFallback && env.cfg.hasLocal {
        fate := RunLocal();
      } else {
        fate := SayAndClose(text);
      }
    }

    method RedactQuery() returns (fate: Fate, text: string)
      modifies this
      ensures Told(Now(), fate, text) == Cleaned(env, old(Now()))
    {
      if !env.cfg.hasLocal { return Resumes, env.scrub(env.query.text); }
      var a := Wait();
      fate, text := a.fate, a.text;
    }

    method OfferEscalation(localFallback: bool) returns (fate: Fate)
      modifies this
      ensures Out(Now(), fate) == OfferedEscalation(env, old(Now()), localFallback)
    {
      if !env.remoteReady {
        fate := StayLocal(localFallback, NO_FRONTIER);
        return;
      }
      var shown;
      fate, shown := RedactQuery();
      if fate != Resumes { return; }
      Note(Redacted(shown));
      var yes;
      fate, yes := Confirm(Escalate(shown));
      if fate != Resumes { return; }
      if yes {
        fate := RunRemote(Some(shown));
      } else {
        fate := StayLocal(localFallback, DECLINED);
      }
    }

    method WaitLocalReady() returns (fate: Fate, chain: Option<Chain>)
      modifies this
      ensures Chosen(Now(), fate, chain) == WaitedLocal(env, old(Now()))
    {
      var a := Wait();
      fate, chain := a.fate, if a.fate == Resumes then Some(Local) else None;
    }

    method ApplyDecision(d: Decision) returns (fate: Fate, chain: Option<Chain>)
      modifies this
      ensures Chosen(Now(), fate, chain) == AppliedDecision(env, old(Now()), d)
    {
      chain := None;
      match d.step
      case Proceed => return Resumes, Some(d.chain);
      case Unavailable => fate := Close(Error, false);
      case WaitLocal =>
        fate := Send(Status);
        if fate == Resumes { fate, chain := WaitLocalReady(); }
      case ConfirmRemote =>
        fate := Send(Status);
        if fate == Resumes { fate, chain := ConfirmOther(d.chain); }
    }

    method ConfirmOther(offered: Chain) returns (fate: Fate, chain: Option<Chain>)
      modifies this
      ensures Chosen(Now(), fate, chain) == ConfirmedOther(env, old(Now()), offered)
    {
      var yes;
      fate, yes := Confirm(Route(offered));
      if fate != Resumes { return fate, None; }
      if yes { return Resumes, Some(Remote); }
      if localReady { return Resumes, Some(Local); }
      fate, chain := WaitLocalReady();
    }

    method Act() returns (fate: Fate)
      modifies this
      ensures Out(Now(), fate) == Carried(env, old(Now()))
    {
      while true
        invariant Carried(env, Now()) == Carried(env, old(Now()))
        decreases |env.awaits| - at
      {
        var a := Wait();
        if a.fate != Resumes { return a.fate; }
        match a.turn
        case Ends =>
          fate := Report(a.text);
          return;
        case Piece(_) =>
          fate := Send(Status);
          if fate != Resumes { return; }
        case Asks =>
          var yes;
          fate, yes := Confirm(Fix);
          if fate != Resumes { return; }
        case Looks =>
      }
    }

    method Report(result: string) returns (fate: Fate)
      modifies this
      ensures Out(Now(), fate) == Reported(env, old(Now()), result)
    {
      var kept := Wait();
      if kept.fate != Resumes { return kept.fate; }
      Note(Acted(result));
      fate := SayAndClose(result);
    }

    method RunChange() returns (fate: Fate)
      modifies this
      ensures Out(Now(), fate) == RanChange(env, old(Now()))
    {
      match env.query.action
      case Some(AppChange) => fate := Act();
      case Some(Toggle) => fate := SayAndClose(NO_TOGGLE);
      case None => fate := OfferEscalation(false);
    }

    method RunRead() returns (fate: Fate)
      modifies this
      ensures Out(Now(), fate) == RanRead(env, old(Now()))
    {
      var chain;
      fate, chain := ApplyDecision(Resolve(Wanted(env).desired, localReady, env.remoteReady));
      if chain.None? { return; }
      if chain.value == Remote {
        fate := RunRemote(None);
        return;
      }
      if env.remoteReady && env.cfg.hasLocal {
        var unsure := Wait();
        if unsure.fate != Resumes { return unsure.fate; }
        if unsure.yes {
          fate := OfferEscalation(true);
          return;
        }
      }
      fate := RunLocal();
    }

    method Classify() returns (fate: Fate)
      modifies this
      ensures Out(Now(), fate) == Classified(env, old(Now()))
    {
      if !env.cfg.hasLocal { return Resumes; }
      if !localReady {
        fate := Send(Status);
        if fate != Resumes { return; }
      }
      var a := Wait();
      fate := a.fate;
    }

    method RunQuery() returns (fate: Fate)
      modifies this
      ensures Out(Now(), fate) == RanQuery(env, old(Now()))
    {
      if env.query.remedy {
        fate := Act();
        return;
      }
      fate := Classify();
      if fate != Resumes { return; }
      if env.query.mutation {
        fate := RunChange();
      } else {
        fate := RunRead();
      }
    }

    method Dispatch() returns (inner: Fate, fate: Fate)
      modifies this
      ensures Life(inner, Now(), fate) == Dispatched(env, old(Now()))
    {
      var lock := Wait();
      if lock.fate != Resumes { return lock.fate, lock.fate; }
      inner := RunQuery();
      fate := inner;
      match inner
      case Cancel => fate := Close(Done(None), true);
      case Known => fate := Close(Error, true);
      case Crash => fate := Close(Error, true);
      case _ =>
    }
  }

  /** A new query, from the message to its end. */
  method Serve(env: Env, localReady: bool) returns (log: seq<Event>, ends: seq<End>, inner: Fate, fate: Fate)
    ensures var life := Dispatched(env, Fresh(localReady));
      log == life.s.log && ends == life.s.ends && inner == life.inner && fate == life.fate
  {
    var dispatcher := new Dispatcher(env, localReady);
    inner, fate := dispatcher.Dispatch();
    log, ends := dispatcher.log, dispatcher.ends;
  }
}

/**
 What the waits of a query bring, wait by wait: which answer counts, which facts and which history
 go to a model, and what a tool's result is.
 */
module DispatchWaits {
  import opened Options
  import opened Strings
  import opened Routing
  import opened QueryLog
  import opened Dispatch

  /** The `i`-th wait comes back. */
  predicate Back(e: Env, i: nat) { i < |e.awaits| && e.awaits[i].fate == Resumes }

  // ---------------------------------------------------------------- questions

  /** A yes is one that was given: the question went out, and the wait for its answer brought a yes. To
      be cancelled then is a no. */
  lemma ConfirmedMeans(e: Env, s: State, topic: Topic)
    ensures var r := Confirmed(e, s, topic); var k := s.at;
      && (r.yes <==> Back(e, k) && Back(e, k + 1) && e.awaits[k + 1].yes)
      && (r.fate == Resumes <==> Back(e, k) && k + 1 < |e.awaits| && e.awaits[k + 1].fate in {Resumes, Cancel})
      && (r.fate == Resumes ==>
            && r.s.at == k + 2 && r.s.log == s.log + [Ask(topic), Answered(r.yes)] && r.s.ends == s.ends
            && r.s.localReady == e.awaits[k + 1].localReady)
  {
    assert s.log + [Ask(topic)] + [Answered(Confirmed(e, s, topic).yes)]
        == s.log + [Ask(topic), Answered(Confirmed(e, s, topic).yes)];
  }

  /** A no to using the other chain gives the local one: at once if it is ready, and otherwise after
      a wait for it. */
  lemma ConfirmedOtherMeans(e: Env, s: State, offered: Chain)
    ensures var r := Confirmed(e, s, Route(offered)); var c := ConfirmedOther(e, s, offered);
      && (c.chain == Some(Remote) <==> r.fate == Resumes && r.yes)
      && (c.chain == Some(Local) <==> r.fate == Resumes && !r.yes && (r.s.localReady || Back(e, r.s.at)))
      && (c.chain == Some(Local) ==> c.s.log == r.s.log && c.s.at == if r.s.localReady then r.s.at else r.s.at + 1)
  {
    ConfirmedMeans(e, s, Route(offered));
  }

  /** Where neither chain is ready the local one is waited for. */
  lemma WaitLocalMeans(e: Env, s: State)
    ensures var c := AppliedDecision(e, s, Decision(Local, WaitLocal));
      && (c.chain.Some? <==> Back(e, s.at) && Back(e, s.at + 1))
      && (c.chain.Some? ==> c.chain == Some(Local) && c.s.at == s.at + 2 && c.s.log == s.log + [Status])
  {
  }

  /** The query is classified by the local model if there is one, and the person is told while it warms
      up. */
  lemma ClassifiedMeans(e: Env, s: State)
    ensures var o := Classified(e, s); var told := e.cfg.hasLocal && !s.localReady;
      && o.s.log == s.log + (if told then [Status] else [])
      && (o.fate == Resumes <==>
            !e.cfg.hasLocal || (if told then Back(e, s.at) && Back(e, s.at + 1) else Back(e, s.at)))
      && (o.fate == Resumes ==> o.s.at == s.at + if !e.cfg.hasLocal then 0 else if told then 2 else 1)
  {
  }

  // ---------------------------------------------------------------- tools

  function Passed(e: Env, escalated: bool, result: string): Event {
    Returned(result, if escalated then e.scrub(result) else result)
  }

  /** A tool that asks first is put to work on a yes and only then; on a no the model is told so. */
  lemma PermittedMeans(e: Env, s: State, escalated: bool)
    ensures var r := Confirmed(e, s, Tool); var u := Permitted(e, s, Away(escalated)); var k := s.at + 2;
      && (u.more <==> r.fate == Resumes && (r.yes ==> Back(e, k)))
      && (u.more && !r.yes ==> u.s.log == r.s.log + [Passed(e, escalated, NOT_DONE)] && u.s.at == k)
      && (u.more && r.yes ==> u.s.log == r.s.log + [Passed(e, escalated, e.awaits[k].text)] && u.s.at == k + 1)
      && (!u.more ==> u.s.log == r.s.log && u.fate != Resumes)
  {
    ConfirmedMeans(e, s, Tool);
  }

  /** What a model says is sent on as it comes; what a tool makes is handed over as it comes, and the
      local model has no tools. */
  lemma TurnedMeans(e: Env, s: State, v: Voice, turn: Turn)
    ensures var u := Turned(e, s, v, turn);
      match turn
      case Ends => u == Uttered(s, Resumes, "", false)
      case Piece(text) => u.text == text && u.s.log == s.log + [Delta(text)] && (u.more <==> Back(e, s.at))
      case Asks => if v.Here? then u == Uttered(s, Resumes, "", true) else u == Permitted(e, s, v)
      case Looks =>
        if v.Here? then u == Uttered(s, Resumes, "", true)
        else
          && (u.more <==> Back(e, s.at)) && (!u.more ==> u.fate != Resumes)
          && u.s.log == s.log + if u.more then [Passed(e, v.escalated, e.awaits[s.at].text)] else []
  {
  }

  // ---------------------------------------------------------------- the log only grows

  lemma SpokenGrows(e: Env, s: State, v: Voice)
    ensures s.log <= Spoken(e, s, v).s.log
  {
  }

  lemma {:induction false} StreamedGrows(e: Env, s: State, said: string, v: Voice)
    ensures s.log <= Streamed(e, s, said, v).s.log
    decreases |e.awaits| - s.at
  {
    var u := Spoken(e, s, v);
    SpokenGrows(e, s, v);
    if u.more { StreamedGrows(e, u.s, said + u.text, v); }
  }

  lemma KeptGrows(e: Env, s: State, chain: Chain, text: string, answer: string, escalated: bool)
    ensures s.log <= Kept(e, s, chain, text, answer, escalated).s.log
  {
  }

  lemma ConcludedGrows(e: Env, s: State, chain: Chain, text: string, escalated: bool)
    ensures s.log <= Concluded(e, s, chain, text, escalated).s.log
  {
    var t := Streamed(e, s, "", VoiceOf(chain, escalated));
    StreamedGrows(e, s, "", VoiceOf(chain, escalated));
    if t.fate == Resumes { KeptGrows(e, t.s, chain, text, t.text, escalated); }
  }

  // ---------------------------------------------------------------- what a model is given

  /** The local model answers from the facts that were gathered; if those are blank it is not asked, and
      the person is told so. */
  lemma FactsMean(e: Env, s: State)
    requires e.query.matched && e.cfg.hasLocal && Back(e, s.at)
    ensures var facts := e.awaits[s.at].text; var o := RanLocal(e, s);
      s.log + [if Strip(facts) == "" then Delta(NO_FACTS) else AskedHere(e.query.text, facts)] <= o.s.log
  {
    var m := Waited(e, s);
    var asked := Noted(m.s, AskedHere(e.query.text, m.a.text));
    ConcludedGrows(e, asked, Local, e.query.text, false);
  }

  /** Without a match, or without the facts to come back, it is asked with none, or not at all. */
  lemma NoFactsMean(e: Env, s: State)
    ensures !(e.query.matched && e.cfg.hasLocal) ==> s.log + [AskedHere(e.query.text, "")] <= RanLocal(e, s).s.log
    ensures e.query.matched && e.cfg.hasLocal && !Back(e, s.at) ==> RanLocal(e, s).s.log == s.log
  {
    ConcludedGrows(e, Noted(s, AskedHere(e.query.text, "")), Local, e.query.text, false);
  }

  /** With the text as it is go the history and the context, as they were fetched. */
  lemma RemoteIsGiven(e: Env, s: State)
    requires Back(e, s.at) && Back(e, s.at + 1)
    ensures s.log + [LeftDevice(e.query.text, e.awaits[s.at].items, BETWEEN + e.awaits[s.at + 1].text)]
         <= RanRemote(e, s, None).s.log
  {
    var context := Waited(e, Waited(e, s).s);
    var left := LeftDevice(e.query.text, e.awaits[s.at].items, BETWEEN + context.a.text);
    ConcludedGrows(e, Noted(context.s, left), Remote, e.query.text, false);
  }

  /** What is shown in a preview is what the local model made of the text, or the scrub where there is no
      local model. */
  lemma PreviewIsCleaned(e: Env, s: State)
    ensures var t := Cleaned(e, s);
      if e.cfg.hasLocal then (t.fate == Resumes <==> Back(e, s.at)) && (Back(e, s.at) ==> t.text == e.awaits[s.at].text)
      else t == Told(s, Resumes, e.scrub(e.query.text))
  {
  }

  /** A change or a restart, wait by wait: a status line is sent, a question asked and its answer awaited,
      and what it comes to is told, if it could be noted. */
  lemma CarriedMeans(e: Env, s: State)
    requires Back(e, s.at)
    ensures var a := e.awaits[s.at]; var m := Waited(e, s).s; var o := Carried(e, s);
      match a.turn
      case Piece(_) =>
        var sent := Sent(e, m, Status);
        sent.s.log == s.log + [Status] && o == if sent.fate == Resumes then Carried(e, sent.s) else sent
      case Asks =>
        var r := Confirmed(e, m, Fix);
        o == if r.fate == Resumes then Carried(e, r.s) else Out(r.s, r.fate)
      case Looks => o == Carried(e, m)
      case Ends =>
        if Back(e, s.at + 1) then s.log + [Acted(a.text), Delta(a.text)] <= o.s.log
        else o.s.log == s.log && o.fate != Resumes
  {
    var text := e.awaits[s.at].text;
    assert s.log + [Acted(text)] + [Delta(text)] == s.log + [Acted(text), Delta(text)];
  }

  /** Each record of an exchange is made after its wait has come back, and the next is not begun before. */
  lemma KeptMeans(e: Env, s: State, chain: Chain, text: string, answer: string, escalated: bool)
    ensures var o := Kept(e, s, chain, text, answer, escalated);
      var user, assistant := Back(e, s.at), Back(e, s.at) && Back(e, s.at + 1);
      var all := assistant && Back(e, s.at + 2);
      && (o.fate == Resumes <==> all)
      && o.s.log == s.log + (if user then [Remembered(true, text)] else [])
                   + (if assistant then [Remembered(false, answer)] else [])
                   + (if all then [Recorded(chain, text, answer, escalated)] else [])
  {
  }
}

/**
 What the life of a query keeps, over every environment: the law of its log, one closing
 message, and when it leaves the device.
 */
module DispatchLaw {
  import opened Options
  import opened Strings
  import opened Routing
  import opened QueryLog
  import opened Dispatch

  ghost function Now(s: State): Desk { Fold(s.log) }

  ghost predicate Good(e: Env, s: State) { Lawful(Wanted(e), s.log) && |s.ends| == Now(s).closed }

  /** Still open, and no model has been called. */
  ghost predicate Open(e: Env, s: State) {
    && Good(e, s) && Now(s).closed == 0
    && Uncalled(Now(s)) && Now(s).remembered == 0 && !Now(s).recorded && Now(s).said == ""
  }

  /** A part of the query is over: if it came back in the usual way the query is closed by
      a send that did; if a closing send went wrong, that is what came back. */
  ghost predicate Over(e: Env, o: Out) {
    && Good(e, o.s) && Now(o.s).closed <= 1
    && (Now(o.s).closed == 1 ==> o.s.ends[0] == Own(o.fate))
    && (o.fate == Resumes ==> Now(o.s).closed == 1)
  }

  /** The query was closed by the chain that ran. */
  ghost predicate ByItsChain(s: State) {
    s.log != [] && s.log[|s.log| - 1] == Done(Some(if Now(s).left.Some? then Remote else Local))
  }

  /** The query was closed with an error of its own: no chain was available. */
  ghost predicate Refused(s: State) {
    s.log != [] && s.log[|s.log| - 1] == Error && Now(s).left == None && !Now(s).here
  }

  /** The answers so far to the two questions about leaving the device. */
  ghost function Consents(s: State): (Option<bool>, Option<bool>) { (Now(s).preview, Now(s).switched) }

  // ---------------------------------------------------------------- one event

  lemma NotedKeeps(e: Env, s: State, ev: Event)
    requires Good(e, s) && Allowed(Now(s), ev, Wanted(e)) && !IsTerminal(ev)
    ensures Good(e, Noted(s, ev)) && Now(Noted(s, ev)) == After(Now(s), ev)
  {
    Append(Wanted(e), s.log, ev);
  }

  lemma SentKeeps(e: Env, s: State, ev: Event)
    requires Good(e, s) && Allowed(Now(s), ev, Wanted(e)) && !IsTerminal(ev)
    ensures Good(e, Sent(e, s, ev).s) && Now(Sent(e, s, ev).s) == After(Now(s), ev)
  {
    NotedKeeps(e, s, ev);
  }

  lemma ClosedKeeps(e: Env, s: State, ev: Event, rescue: bool)
    requires Good(e, s) && Allowed(Now(s), ev, Wanted(e)) && IsTerminal(ev)
    ensures var o := Closed(e, s, ev, rescue);
      && Good(e, o.s) && Now(o.s) == After(Now(s), ev) && o.s.log == s.log + [ev]
      && o.s.ends == s.ends + [if rescue then Rescue(o.fate) else Own(o.fate)]
  {
    Append(Wanted(e), s.log, ev);
  }

  /** Closing an open query with a message of its own. */
  lemma ClosedIsOver(e: Env, s: State, ev: Event)
    requires Good(e, s) && Now(s).closed == 0 && Allowed(Now(s), ev, Wanted(e)) && IsTerminal(ev)
    ensures var o := Closed(e, s, ev, false);
      && Over(e, o) && o.s.log == s.log + [ev]
      && Now(o.s).left == Now(s).left && Now(o.s).here == Now(s).here && Consents(o.s) == Consents(s)
      && Now(o.s).acted == Now(s).acted
  {
    ClosedKeeps(e, s, ev, false);
  }

  lemma HeardKeeps(e: Env, s: State)
    requires Good(e, s) && Now(s).closed == 0 && Now(s).waiting
    ensures var r := Heard(e, s);
      Good(e, r.s) && Now(r.s) == if r.fate == Resumes then After(Now(s), Answered(r.yes)) else Now(s)
  {
    var m := Waited(e, s);
    if m.a.fate == Resumes || m.a.fate == Cancel { NotedKeeps(e, m.s, Answered(m.a.fate == Resumes && m.a.yes)); }
  }

  lemma ConfirmedKeeps(e: Env, s: State, topic: Topic)
    requires Good(e, s) && Now(s).closed == 0 && MayAsk(Now(s), topic, Wanted(e))
    ensures var r := Confirmed(e, s, topic);
      && Good(e, r.s)
      && Now(r.s) == if r.fate == Resumes then After(After(Now(s), Ask(topic)), Answered(r.yes))
                     else After(Now(s), Ask(topic))
  {
    SentKeeps(e, s, Ask(topic));
    HeardKeeps(e, Sent(e, s, Ask(topic)).s);
  }

  // ---------------------------------------------------------------- a model's answer

  /** A stretch of a query in which nothing of its course is decided. */
  ghost predicate Alongside(s: State, t: State) {
    && Now(t).left == Now(s).left && Now(t).here == Now(s).here && Now(t).recorded == Now(s).recorded
    && Consents(t) == Consents(s) && Now(s).closed == 0 && Now(t).closed == 0
  }

  /** The model that was called is the one that speaks. */
  ghost predicate Speaks(s: State, v: Voice) {
    match v
    case Here => Now(s).here && Now(s).left == None
    case Away(escalated) => Now(s).left.Some? && (escalated <==> Now(s).preview == Some(true))
  }

  /** From `s` to `t` the model that speaks has said `said` more. */
  ghost predicate SpokeOn(e: Env, s: State, t: State, v: Voice, said: string) {
    && Good(e, t) && Alongside(s, t) && Speaks(t, v)
    && Now(t).said == Now(s).said + said && Now(t).remembered == Now(s).remembered
  }

  lemma PieceKeeps(e: Env, s: State, v: Voice, text: string)
    requires Good(e, s) && Now(s).closed == 0 && Speaks(s, v)
    ensures var o := Sent(e, s, Delta(text)); SpokeOn(e, s, o.s, v, text) && Now(o.s).answer == None
  {
    SentKeeps(e, s, Delta(text));
  }

  lemma ReturnedIsAllowed(d: Desk, w: Wish, ev: Event)
    requires ev.Returned? && d.closed == 0 && d.left.Some?
    requires ev.sent == if d.preview == Some(true) then w.scrub(ev.result) else ev.result
    requires d.asked == Some(Tool) && d.answer == Some(false) ==> ev.result == NOT_DONE
    ensures Allowed(d, ev, w)
    ensures var t := After(d, ev);
      && t.left == d.left && t.here == d.here && t.recorded == d.recorded && t.remembered == d.remembered
      && t.preview == d.preview && t.switched == d.switched && t.said == d.said && t.closed == 0 && t.answer == None
  {
  }

  lemma HandedKeeps(e: Env, s: State, v: Voice, result: string)
    requires Good(e, s) && Now(s).closed == 0 && Speaks(s, v) && v.Away?
    requires Now(s).asked == Some(Tool) && Now(s).answer == Some(false) ==> result == NOT_DONE
    ensures SpokeOn(e, s, Handed(e, s, v, result), v, "") && Now(Handed(e, s, v, result)).answer == None
  {
    var ev := Returned(result, if v.escalated then e.scrub(result) else result);
    ReturnedIsAllowed(Now(s), Wanted(e), ev);
    NotedKeeps(e, s, ev);
  }

  lemma UsedKeeps(e: Env, s: State, v: Voice)
    requires Good(e, s) && Now(s).closed == 0 && Speaks(s, v) && v.Away? && Now(s).answer != Some(false)
    ensures var u := Used(e, s, v); SpokeOn(e, s, u.s, v, u.text) && (u.more ==> Now(u.s).answer == None)
  {
    var m := Waited(e, s);
    if m.a.fate == Resumes { HandedKeeps(e, m.s, v, m.a.text); }
  }

  lemma PermittedKeeps(e: Env, s: State, v: Voice)
    requires Good(e, s) && Now(s).closed == 0 && Speaks(s, v) && v.Away?
    ensures var u := Permitted(e, s, v); SpokeOn(e, s, u.s, v, u.text) && (u.more ==> Now(u.s).answer == None)
  {
    ConfirmedKeeps(e, s, Tool);
    var r := Confirmed(e, s, Tool);
    assert SpokeOn(e, s, r.s, v, "");
    if r.fate == Resumes && r.yes { UsedKeeps(e, r.s, v); }
    if r.fate == Resumes && !r.yes { HandedKeeps(e, r.s, v, NOT_DONE); }
  }

  lemma TurnedKeeps(e: Env, s: State, v: Voice, turn: Turn)
    requires Good(e, s) && Now(s).closed == 0 && Speaks(s, v) && Now(s).answer == None
    ensures var u := Turned(e, s, v, turn); SpokeOn(e, s, u.s, v, u.text) && (u.more ==> Now(u.s).answer == None)
  {
    match turn
    case Ends =>
    case Piece(text) => PieceKeeps(e, s, v, text);
    case Asks => if v.Away? { PermittedKeeps(e, s, v); }
    case Looks => if v.Away? { UsedKeeps(e, s, v); }
  }

  lemma SpokenKeeps(e: Env, s: State, v: Voice)
    requires Good(e, s) && Now(s).closed == 0 && Speaks(s, v) && Now(s).answer == None
    ensures var u := Spoken(e, s, v); SpokeOn(e, s, u.s, v, u.text) && (u.more ==> Now(u.s).answer == None)
  {
    var m := Waited(e, s);
    if m.a.fate == Resumes { TurnedKeeps(e, m.s, v, m.a.turn); }
  }

  lemma {:induction false} StreamedKeeps(e: Env, s: State, said: string, v: Voice)
    requires Good(e, s) && Now(s).closed == 0 && Now(s).said == said && Speaks(s, v) && Now(s).answer == None
    ensures var t := Streamed(e, s, said, v);
      && Good(e, t.s) && Alongside(s, t.s) && Now(t.s).said == t.text && Now(t.s).remembered == Now(s).remembered
    decreases |e.awaits| - s.at
  {
    SpokenKeeps(e, s, v);
    var u := Spoken(e, s, v);
    if u.more { StreamedKeeps(e, u.s, said + u.text, v); }
  }

  /** A model was asked `text` on `chain`, and nothing has come of it yet. */
  ghost predicate Called(e: Env, s: State, chain: Chain, text: string, escalated: bool) {
    && Good(e, s) && Now(s).closed == 0 && !Now(s).recorded
    && (Now(s).left.Some? || Now(s).here) && (chain == Remote <==> Now(s).left.Some?)
    && text == Asked(Now(s), Wanted(e))
    && (escalated <==> Now(s).left.Some? && Now(s).preview == Some(true))
  }

  /** A model was asked in `s`, and no further than that by now. */
  ghost predicate StillCalled(e: Env, s: State, t: State, chain: Chain, text: string, escalated: bool) {
    Called(e, t, chain, text, escalated) && Alongside(s, t) && Now(t).said == Now(s).said
  }

  /** One side of the exchange is remembered, and the next wait is over. */
  lemma RememberedKeeps(e: Env, s: State, chain: Chain, text: string, escalated: bool, user: bool)
    requires Called(e, s, chain, text, escalated) && Now(s).remembered == if user then 0 else 1
    ensures var t := Noted(s, Remembered(user, if user then text else Now(s).said));
      && StillCalled(e, s, t, chain, text, escalated) && StillCalled(e, s, Waited(e, t).s, chain, text, escalated)
      && Now(t).remembered == Now(s).remembered + 1
  {
    NotedKeeps(e, s, Remembered(user, if user then text else Now(s).said));
  }

  lemma RecordedKeeps(e: Env, s: State, chain: Chain, text: string, escalated: bool)
    requires Called(e, s, chain, text, escalated) && Now(s).remembered == 2
    ensures var t := Noted(s, Recorded(chain, text, Now(s).said, escalated));
      && Good(e, t) && Now(t).closed == 0 && Now(t).recorded
      && Now(t).left == Now(s).left && Now(t).here == Now(s).here && Consents(t) == Consents(s)
  {
    NotedKeeps(e, s, Recorded(chain, text, Now(s).said, escalated));
  }

  lemma KeptKeeps(e: Env, s: State, chain: Chain, text: string, answer: string, escalated: bool)
    requires Called(e, s, chain, text, escalated) && answer == Now(s).said && Now(s).remembered == 0
    ensures var o := Kept(e, s, chain, text, answer, escalated);
      && Good(e, o.s) && Now(o.s).closed == 0 && (o.fate == Resumes ==> Now(o.s).recorded)
      && Now(o.s).left == Now(s).left && Now(o.s).here == Now(s).here && Consents(o.s) == Consents(s)
  {
    var user := Waited(e, s);
    var s1 := Noted(user.s, Remembered(true, text));
    var assistant := Waited(e, s1);
    var s2 := Noted(assistant.s, Remembered(false, answer));
    var kept := Waited(e, s2);
    assert StillCalled(e, s, user.s, chain, text, escalated);
    if user.a.fate == Resumes {
      RememberedKeeps(e, user.s, chain, text, escalated, true);
      if assistant.a.fate == Resumes {
        RememberedKeeps(e, assistant.s, chain, text, escalated, false);
        if kept.a.fate == Resumes { RecordedKeeps(e, kept.s, chain, text, escalated); }
      }
    }
  }

  lemma ConcludedKeeps(e: Env, s: State, chain: Chain, text: string, escalated: bool)
    requires Called(e, s, chain, text, escalated)
    requires Now(s).said == "" && Now(s).remembered == 0 && Now(s).answer == None && !(Now(s).left.Some? && Now(s).here)
    ensures var o := Concluded(e, s, chain, text, escalated);
      && Over(e, o) && (o.fate == Resumes ==> ByItsChain(o.s))
      && Now(o.s).left == Now(s).left && Now(o.s).here == Now(s).here && Consents(o.s) == Consents(s)
  {
    var t := Streamed(e, s, "", VoiceOf(chain, escalated));
    StreamedKeeps(e, s, "", VoiceOf(chain, escalated));
    if t.fate == Resumes {
      var k := Kept(e, t.s, chain, text, t.text, escalated);
      KeptKeeps(e, t.s, chain, text, t.text, escalated);
      if k.fate == Resumes { ClosedIsOver(e, k.s, Done(Some(chain))); }
    }
  }

  lemma SaidAndClosedKeeps(e: Env, s: State, text: string)
    requires Open(e, s) && PlainWord(Now(s), text, Wanted(e))
    ensures var o := SaidAndClosed(e, s, text);
      && Over(e, o) && Uncalled(Now(o.s)) && Consents(o.s) == Consents(s) && Now(o.s).acted == Now(s).acted
      && (o.fate == Resumes ==> ByItsChain(o.s) && o.s.log == s.log + [Delta(text)] + [Done(Some(Local))])
  {
    SentKeeps(e, s, Delta(text));
    var o := Sent(e, s, Delta(text));
    if o.fate == Resumes { ClosedIsOver(e, o.s, Done(Some(Local))); }
  }

  // ---------------------------------------------------------------- the two chains

  /** What the local chain comes to. */
  ghost predicate Stayed(e: Env, s: State, o: Out) {
    && Over(e, o) && Now(o.s).left == None && Consents(o.s) == Consents(s) && (o.fate == Resumes ==> ByItsChain(o.s))
  }

  lemma AnsweredHere(e: Env, s: State, facts: string)
    requires Open(e, s) && MayAnswerHere(Now(s), Wanted(e))
    requires if e.query.matched && e.cfg.hasLocal then Strip(facts) != "" else facts == ""
    ensures var o := Concluded(e, Noted(s, AskedHere(e.query.text, facts)), Local, e.query.text, false);
      Stayed(e, s, o) && Now(o.s).here
  {
    NotedKeeps(e, s, AskedHere(e.query.text, facts));
    ConcludedKeeps(e, Noted(s, AskedHere(e.query.text, facts)), Local, e.query.text, false);
  }

  lemma FactsKeep(e: Env, s: State)
    requires Open(e, s) && MayAnswerHere(Now(s), Wanted(e)) && e.query.matched && e.cfg.hasLocal
    ensures Stayed(e, s, RanLocal(e, s))
  {
    var m := Waited(e, s);
    if m.a.fate == Resumes {
      if Strip(m.a.text) == "" {
        SaidAndClosedKeeps(e, m.s, NO_FACTS);
      } else {
        AnsweredHere(e, m.s, m.a.text);
      }
    }
  }

  /** The local chain: nothing leaves, and a normal end means that the local model answered,
      or that the facts it was to answer from could not be had. */
  lemma RanLocalKeeps(e: Env, s: State)
    requires Open(e, s) && MayAnswerHere(Now(s), Wanted(e))
    ensures var o := RanLocal(e, s);
      && Over(e, o) && Now(o.s).left == None && Consents(o.s) == Consents(s)
      && (o.fate == Resumes ==> ByItsChain(o.s) && (Now(o.s).here || (e.query.matched && e.cfg.hasLocal)))
  {
    if e.query.matched && e.cfg.hasLocal {
      FactsKeep(e, s);
    } else {
      AnsweredHere(e, s, "");
    }
  }

  lemma LeftKeeps(e: Env, s: State, sent: string, history: seq<string>, context: string)
    requires Open(e, s) && Consented(Now(s), Wanted(e), sent, history, context)
    requires Wanted(e).kind != Remedy && (Wanted(e).kind.Change? ==> Previewed(Now(s)))
    ensures var t := Noted(s, LeftDevice(sent, history, context));
      var o := Concluded(e, t, Remote, sent, Now(s).preview == Some(true));
      && Over(e, o) && Now(o.s).left == Some(sent) && Consents(o.s) == Consents(s)
      && (o.fate == Resumes ==> ByItsChain(o.s))
  {
    NotedKeeps(e, s, LeftDevice(sent, history, context));
    ConcludedKeeps(e, Noted(s, LeftDevice(sent, history, context)), Remote, sent, Now(s).preview == Some(true));
  }

  /** After a yes to the preview: what was shown is what leaves. */
  lemma RanRemoteShown(e: Env, s: State, shown: string)
    requires Open(e, s) && Now(s).asked == Some(Escalate(shown)) && Now(s).answer == Some(true)
    requires Now(s).preview == Some(true) && Wanted(e).kind != Remedy
    ensures var o := RanRemote(e, s, Some(shown));
      && Over(e, o) && Now(o.s).left == Some(shown) && Consents(o.s) == Consents(s)
      && (o.fate == Resumes ==> ByItsChain(o.s))
  {
    LeftKeeps(e, s, shown, [], "");
  }

  /** The text as it is, with its history and the context. */
  lemma RanRemoteRaw(e: Env, s: State)
    requires Open(e, s) && Now(s).preview == None && !Previewed(Now(s)) && Wanted(e).kind == Read
    requires Consented(Now(s), Wanted(e), e.query.text, [], "")
    ensures var o := RanRemote(e, s, None);
      && Over(e, o) && (Now(o.s).left.Some? ==> Now(o.s).left == Some(e.query.text)) && Consents(o.s) == Consents(s)
      && (o.fate == Resumes ==> ByItsChain(o.s) && Now(o.s).left.Some?)
  {
    var recent := Waited(e, s);
    var context := Waited(e, recent.s);
    if recent.a.fate == Resumes && context.a.fate == Resumes {
      LeftKeeps(e, context.s, e.query.text, recent.a.items, BETWEEN + context.a.text);
    }
  }

  // ---------------------------------------------------------------- escalation

  lemma StayedLocalKeeps(e: Env, s: State, localFallback: bool, text: string)
    requires Open(e, s)
    requires if localFallback && e.cfg.hasLocal then MayAnswerHere(Now(s), Wanted(e))
             else PlainWord(Now(s), text, Wanted(e))
    ensures var o := StayedLocal(e, s, localFallback, text);
      && Over(e, o) && Now(o.s).left == None && Consents(o.s) == Consents(s)
      && (o.fate == Resumes ==> ByItsChain(o.s))
      && (Now(o.s).here ==> localFallback && e.cfg.hasLocal)
  {
    if localFallback && e.cfg.hasLocal {
      RanLocalKeeps(e, s);
    } else {
      SaidAndClosedKeeps(e, s, text);
    }
  }

  lemma CleanedKeeps(e: Env, s: State)
    requires Open(e, s) && MayPreview(Wanted(e))
    ensures var t := Cleaned(e, s); var r := Noted(t.s, Redacted(t.text));
      Over(e, Out(t.s, if t.fate == Resumes then Never else t.fate)) && Now(t.s) == Now(s)
      && Open(e, r) && Now(r).redacted == Some(t.text) && Consents(r) == Consents(s)
  {
    var t := Cleaned(e, s);
    NotedKeeps(e, t.s, Redacted(t.text));
  }

  /** A change is offered as one, and a read with the local model to fall back to. */
  ghost predicate OfferSuits(e: Env, s: State, localFallback: bool) {
    if localFallback then e.cfg.hasLocal && MayAnswerHere(Now(s), Wanted(e)) else Wanted(e).kind == Change(None)
  }

  /** The preview and what follows it: the text shown leaves if and only if the answer is yes. */
  lemma PreviewingKeeps(e: Env, s: State, shown: string, localFallback: bool)
    requires Open(e, s) && MayPreview(Wanted(e)) && Now(s).preview == None && Now(s).redacted == Some(shown)
    requires OfferSuits(e, s, localFallback)
    ensures var o := Previewing(e, s, shown, localFallback);
      && Over(e, o) && Now(o.s).switched == Now(s).switched
      && (Now(o.s).left == if Now(o.s).preview == Some(true) then Some(shown) else None)
      && (o.fate == Resumes ==> ByItsChain(o.s) && Now(o.s).preview.Some?)
  {
    ConfirmedKeeps(e, s, Escalate(shown));
    var r := Confirmed(e, s, Escalate(shown));
    if r.fate == Resumes {
      if r.yes {
        RanRemoteShown(e, r.s, shown);
      } else {
        StayedLocalKeeps(e, r.s, localFallback, DECLINED);
      }
    }
  }

  /** The preview is shown whenever there is a remote chain to send to; what it shows is what
      redaction made of the text, and that leaves if and only if the answer is yes. */
  lemma OfferedEscalationKeeps(e: Env, s: State, localFallback: bool)
    requires Open(e, s) && Now(s).answer != Some(true) && Now(s).preview == None && OfferSuits(e, s, localFallback)
    ensures var o := OfferedEscalation(e, s, localFallback);
      && Over(e, o) && Now(o.s).switched == Now(s).switched
      && (Now(o.s).left == if Now(o.s).preview == Some(true) then Some(Cleaned(e, s).text) else None)
      && (o.fate == Resumes ==> ByItsChain(o.s) && (Now(o.s).preview.Some? <==> e.remoteReady))
  {
    if e.remoteReady {
      CleanedKeeps(e, s);
      var t := Cleaned(e, s);
      if t.fate == Resumes { PreviewingKeeps(e, Noted(t.s, Redacted(t.text)), t.text, localFallback); }
    } else {
      StayedLocalKeeps(e, s, localFallback, NO_FRONTIER);
    }
  }

  // ---------------------------------------------------------------- the decision

  /** Nothing has been asked yet. */
  ghost predicate Unasked(e: Env, s: State) {
    Open(e, s) && Now(s).asked == None && Now(s).answer == None && Consents(s) == (None, None)
  }

  /** What a chain that was chosen may rest on. */
  ghost predicate Settled(e: Env, c: Chosen) {
    && Now(c.s).preview == None && !Previewed(Now(c.s))
    && (c.chain.None? ==> Over(e, Out(c.s, c.fate)) && Now(c.s).left == None && !Now(c.s).here)
    && (c.chain.Some? ==> c.fate == Resumes && Open(e, c.s))
    && (c.chain == Some(Remote) ==> Consented(Now(c.s), Wanted(e), e.query.text, [], ""))
    && (c.chain == Some(Local) ==> MayAnswerHere(Now(c.s), Wanted(e)))
  }

  /** The answer to the question about the other chain. */
  lemma AnsweredOther(e: Env, s: State, offered: Chain)
    requires Unasked(e, s) && Wanted(e).kind == Read
    requires offered == Other(Wanted(e).desired) && (e.remoteReady <==> offered == Remote)
    ensures var r := Confirmed(e, s, Route(offered));
      && Now(r.s).preview == None && !Previewed(Now(r.s))
      && (r.fate != Resumes ==> Over(e, Out(r.s, r.fate)) && Now(r.s).left == None && !Now(r.s).here)
      && (r.fate == Resumes ==>
            && Open(e, r.s) && Now(r.s).switched == Some(r.yes) && Now(r.s).answer == Some(r.yes)
            && Now(r.s).asked == Some(Route(offered)))
  {
    ConfirmedKeeps(e, s, Route(offered));
  }

  /** Waiting for the local model, where nothing was agreed to. */
  lemma WaitedLocalKeeps(e: Env, s: State)
    requires Open(e, s) && Now(s).preview == None && !Previewed(Now(s)) && MayAnswerHere(Now(s), Wanted(e))
    ensures var c := WaitedLocal(e, s);
      && Settled(e, c) && Now(c.s) == Now(s) && c.chain != Some(Remote) && (c.chain.None? ==> c.fate != Resumes)
  {
    var m := Waited(e, s);
    assert Open(e, m.s);
  }

  lemma ConfirmedOtherKeeps(e: Env, s: State, offered: Chain)
    requires Unasked(e, s) && Wanted(e).kind == Read
    requires offered == Other(Wanted(e).desired) && (e.remoteReady <==> offered == Remote)
    ensures var c := ConfirmedOther(e, s, offered);
      && Settled(e, c) && (c.chain.None? ==> c.fate != Resumes)
      && (c.chain.Some? ==> Now(c.s).switched == Some(c.chain.value == Remote))
  {
    AnsweredOther(e, s, offered);
    var r := Confirmed(e, s, Route(offered));
    if r.fate == Resumes && !r.yes && !r.s.localReady { WaitedLocalKeeps(e, r.s); }
  }

  lemma StatusKeeps(e: Env, s: State)
    requires Open(e, s)
    ensures var o := Sent(e, s, Status);
      && Open(e, o.s) && Consents(o.s) == Consents(s) && Now(o.s).asked == Now(s).asked && Now(o.s).answer == None
      && (o.fate != Resumes ==> Over(e, o))
  {
    SentKeeps(e, s, Status);
  }

  /** What a decision comes to. */
  ghost predicate Decided(e: Env, d: Decision, c: Chosen) {
    && Settled(e, c)
    && (c.chain.Some? ==> Now(c.s).switched == if d.step == ConfirmRemote then Some(c.chain.value == Remote) else None)
    && (c.chain.Some? && d.step != ConfirmRemote ==> d.step != Unavailable && c.chain.value == d.chain)
    && (c.chain.None? && c.fate == Resumes ==> d.step == Unavailable && Refused(c.s))
  }

  lemma WaitIsDecided(e: Env, s: State, d: Decision)
    requires Unasked(e, s) && Wanted(e).kind == Read && Wanted(e).desired == Local && d == Decision(Local, WaitLocal)
    ensures Decided(e, d, AppliedDecision(e, s, d))
  {
    StatusKeeps(e, s);
    var o := Sent(e, s, Status);
    if o.fate == Resumes { WaitedLocalKeeps(e, o.s); }
  }

  lemma AppliedDecisionKeeps(e: Env, s: State, d: Decision)
    requires Unasked(e, s) && Wanted(e).kind == Read && d == Resolve(Wanted(e).desired, s.localReady, e.remoteReady)
    ensures Decided(e, d, AppliedDecision(e, s, d))
  {
    match d.step
    case Proceed =>
    case Unavailable =>
      ClosedIsOver(e, s, Error);
      ClosedKeeps(e, s, Error, false);
    case WaitLocal => WaitIsDecided(e, s, d);
    case ConfirmRemote =>
      StatusKeeps(e, s);
      var o := Sent(e, s, Status);
      if o.fate == Resumes { ConfirmedOtherKeeps(e, o.s, d.chain); }
  }

  // ---------------------------------------------------------------- the three kinds of query

  lemma FixKeeps(e: Env, s: State)
    requires Open(e, s) && MayAct(Wanted(e))
    ensures var r := Confirmed(e, s, Fix);
      Open(e, r.s) && Consents(r.s) == Consents(s) && (r.fate != Resumes ==> Over(e, Out(r.s, r.fate)))
  {
    ConfirmedKeeps(e, s, Fix);
  }

  /** A fix that was carried out, or ended early: no model was called. */
  ghost predicate Handled(e: Env, s: State, o: Out) {
    && Over(e, o) && Now(o.s).left == None && !Now(o.s).here && Consents(o.s) == Consents(s)
    && (o.fate == Resumes ==> ByItsChain(o.s) && Now(o.s).acted.Some?)
  }

  lemma {:induction false} CarriedKeeps(e: Env, s: State)
    requires Open(e, s) && MayAct(Wanted(e))
    ensures Handled(e, s, Carried(e, s))
    decreases |e.awaits| - s.at
  {
    var m := Waited(e, s);
    assert Open(e, m.s) && Consents(m.s) == Consents(s);
    if m.a.fate == Resumes && s.at < |e.awaits| {
      match m.a.turn
      case Ends => ReportedKeeps(e, m.s, m.a.text);
      case Piece(_) =>
        StatusKeeps(e, m.s);
        var o := Sent(e, m.s, Status);
        if o.fate == Resumes { CarriedKeeps(e, o.s); }
      case Asks =>
        FixKeeps(e, m.s);
        var r := Confirmed(e, m.s, Fix);
        if r.fate == Resumes { CarriedKeeps(e, r.s); }
      case Looks => CarriedKeeps(e, m.s);
    }
  }

  lemma ReportedKeeps(e: Env, s: State, result: string)
    requires Open(e, s) && MayAct(Wanted(e))
    ensures Handled(e, s, Reported(e, s, result))
  {
    var kept := Waited(e, s);
    if kept.a.fate == Resumes {
      NotedKeeps(e, kept.s, Acted(result));
      SaidAndClosedKeeps(e, Noted(kept.s, Acted(result)), result);
    }
  }

  /** A change is offered to the remote chain if nothing simpler fits and there is one, and
      leaves the device if and only if the preview was answered with yes. */
  ghost predicate Changes(e: Env, s: State) {
    && (Now(s).left.Some? <==> Now(s).preview == Some(true))
    && (Now(s).preview.Some? <==> e.query.action == None && e.remoteReady)
  }

  lemma RanChangeKeeps(e: Env, s: State)
    requires Unasked(e, s) && Wanted(e).kind == Change(e.query.action)
    ensures var o := RanChange(e, s);
      && Over(e, o) && Now(o.s).switched == None
      && (Now(o.s).left.Some? ==> Now(o.s).preview == Some(true))
      && (o.fate == Resumes ==> ByItsChain(o.s) && Changes(e, o.s))
  {
    match e.query.action
    case Some(AppChange) => CarriedKeeps(e, s);
    case Some(Toggle) => SaidAndClosedKeeps(e, s, NO_TOGGLE);
    case None => OfferedEscalationKeeps(e, s, false);
  }

  /** When a read that was closed by its chain has left the device: by consent, or because
      that is where it was wanted and could be had. */
  ghost predicate Departs(e: Env, s: State) {
    Now(s).left.Some? <==>
      || Now(s).preview == Some(true) || Now(s).switched == Some(true)
      || (Wanted(e).desired == Remote && e.remoteReady)
  }

  /** The local model was asked whether it can answer, since there is someone else to ask, and was
      not sure. */
  predicate Unsure(e: Env, s: State) { e.remoteReady && e.cfg.hasLocal && s.at < |e.awaits| && e.awaits[s.at].yes }

  lemma AssessedKeeps(e: Env, s: State)
    requires Open(e, s) && MayAnswerHere(Now(s), Wanted(e)) && Now(s).preview == None
    ensures var o := Assessed(e, s);
      && Over(e, o) && Now(o.s).switched == Now(s).switched
      && (o.fate == Resumes ==> ByItsChain(o.s) && (Now(o.s).left.Some? <==> Now(o.s).preview == Some(true)))
      && (o.fate == Resumes ==> (Now(o.s).preview.Some? <==> Unsure(e, s)))
  {
    if !(e.remoteReady && e.cfg.hasLocal) {
      RanLocalKeeps(e, s);
    } else {
      var unsure := Waited(e, s);
      if unsure.a.fate == Resumes {
        OfferedEscalationKeeps(e, unsure.s, true);
        RanLocalKeeps(e, unsure.s);
      }
    }
  }

  /** The read came to the local chain, which was not sure. */
  predicate Doubted(e: Env, s: State) {
    var c := AppliedDecision(e, s, Resolve(Wanted(e).desired, s.localReady, e.remoteReady));
    c.chain == Some(Local) && Unsure(e, c.s)
  }

  lemma RanReadKeeps(e: Env, s: State)
    requires Unasked(e, s) && Wanted(e).kind == Read
    ensures var o := RanRead(e, s);
      && Over(e, o)
      && (o.fate == Resumes ==>
            if Resolve(Wanted(e).desired, s.localReady, e.remoteReady).step == Unavailable then Refused(o.s)
            else ByItsChain(o.s) && Departs(e, o.s))
      && (o.fate == Resumes ==> (Now(o.s).preview.Some? <==> Doubted(e, s)))
  {
    var d := Resolve(Wanted(e).desired, s.localReady, e.remoteReady);
    var c := AppliedDecision(e, s, d);
    AppliedDecisionKeeps(e, s, d);
    if c.chain == Some(Remote) {
      RanRemoteRaw(e, c.s);
    } else if c.chain.Some? {
      AssessedKeeps(e, c.s);
    }
  }

  lemma ClassifiedKeeps(e: Env, s: State)
    requires Unasked(e, s)
    ensures var o := Classified(e, s); Unasked(e, o.s) && (o.fate != Resumes ==> Over(e, o))
  {
    if e.cfg.hasLocal {
      var o := if s.localReady then Out(s, Resumes) else Sent(e, s, Status);
      if !s.localReady { StatusKeeps(e, s); }
      assert Unasked(e, o.s);
    }
  }

  /** What a query that came back normally has done. */
  ghost predicate Normal(e: Env, s: State) {
    if e.query.remedy then ByItsChain(s) && Now(s).acted.Some? && Now(s).left == None && !Now(s).here
    else if e.query.mutation then ByItsChain(s) && Changes(e, s)
    else (Refused(s) && Wanted(e).desired == Remote && !e.remoteReady) || (ByItsChain(s) && Departs(e, s))
  }

  lemma RanQueryKeeps(e: Env, s: State)
    requires Unasked(e, s)
    ensures var o := RanQuery(e, s);
      && Over(e, o) && (o.fate == Resumes ==> Normal(e, o.s))
      && (e.query.remedy ==> Now(o.s).left == None && !Now(o.s).here)
      && (e.query.mutation ==>
            Now(o.s).switched == None && (Now(o.s).left.Some? ==> Now(o.s).preview == Some(true)))
      && (o.fate == Resumes && Wanted(e).kind == Read ==> (Now(o.s).preview.Some? <==> Doubted(e, Classified(e, s).s)))
  {
    if e.query.remedy {
      CarriedKeeps(e, s);
    } else {
      ClassifiedKeeps(e, s);
      var o := Classified(e, s);
      if o.fate == Resumes {
        if e.query.mutation { RanChangeKeeps(e, o.s); } else { RanReadKeeps(e, o.s); }
      }
    }
  }

  // ---------------------------------------------------------------- the whole life

  /** The session's lock was obtained: the first wait resumed. */
  predicate Admitted(e: Env) { e.awaits != [] && e.awaits[0].fate == Resumes }

  /** For every environment: the log is lawful; a query that is over was closed by no message
      at all if and only if it never got the lock, for a cancellation there is answered by
      nobody; it was closed by a second one if and only if the send of a closing message of its
      own went wrong; and otherwise by exactly one. A remedy calls no model, and a change lets leave
      only what its preview showed. */
  lemma LifeIsLawful(e: Env, localReady: bool)
    ensures var life := Dispatched(e, Fresh(localReady));
      && Good(e, life.s) && Now(life.s).closed == |life.s.ends| <= 2
      && (life.fate != Never ==>
            && (life.s.ends == [] <==> !Admitted(e))
            && (|life.s.ends| == 2 <==> life.s.ends != [] && life.s.ends[0].Own? && life.s.ends[0].fate != Resumes))
    ensures var s := Dispatched(e, Fresh(localReady)).s;
      && (e.query.remedy ==> Now(s).left == None && !Now(s).here)
      && (e.query.mutation ==> Now(s).switched == None && (Now(s).left.Some? ==> Now(s).preview == Some(true)))
  {
    var s := Waited(e, Fresh(localReady)).s;
    assert Unasked(e, s);
    if Admitted(e) {
      RanQueryKeeps(e, s);
      RescuedKeeps(e, RanQuery(e, s));
    }
  }

  lemma RescuedKeeps(e: Env, o: Out)
    requires Over(e, o)
    ensures var life := Rescued(e, o);
      && Good(e, life.s) && Now(life.s).closed <= 2
      && Now(life.s).left == Now(o.s).left && Now(life.s).here == Now(o.s).here && Consents(life.s) == Consents(o.s)
      && (life.fate != Never ==>
            && |life.s.ends| >= 1
            && (|life.s.ends| == 2 <==> life.s.ends[0].Own? && life.s.ends[0].fate != Resumes))
  {
    if o.fate != Resumes && o.fate != Never {
      ClosedKeeps(e, o.s, if o.fate == Cancel then Done(None) else Error, true);
    }
  }

  /** How it was closed: as the query itself did if that came back, as a cancellation or as an
      error otherwise. */
  lemma LifeEnds(e: Env, localReady: bool)
    requires Admitted(e) && Dispatched(e, Fresh(localReady)).fate != Never
    ensures var life := Dispatched(e, Fresh(localReady));
      && life.s.log != []
      && match life.inner {
           case Resumes => Normal(e, life.s)
           case Cancel => life.s.log[|life.s.log| - 1] == Done(None)
           case Never => false
           case _ => life.s.log[|life.s.log| - 1] == Error
         }
  {
    var s := Waited(e, Fresh(localReady)).s;
    assert Unasked(e, s);
    RanQueryKeeps(e, s);
  }

  /** By its own fields a query is wanted on the device: it was asked for there, or, if nowhere, what it
      is about is private, or nothing says where and the device is the default. What it is about only
      a local model can say, and what is private stays so whatever else it is. */
  predicate AtHome(e: Env) {
    var hints := if e.cfg.hasLocal then e.query.hints else {};
    || e.query.explicit == Some(Local)
    || (e.query.explicit.None? && HintLocal in hints)
    || (e.query.explicit.None? && HintRemote !in hints && e.cfg.default == Local)
  }

  lemma WantedMeans(e: Env)
    ensures Wanted(e).desired == Local <==> AtHome(e)
    ensures Wanted(e).remoteReady == e.remoteReady && Wanted(e).text == e.query.text && Wanted(e).scrub == e.scrub
    ensures Wanted(e).hasLocal == e.cfg.hasLocal && Wanted(e).matched == e.query.matched
    ensures Wanted(e).kind == Remedy <==> e.query.remedy
    ensures Wanted(e).kind.Change? <==> !e.query.remedy && e.query.mutation
  {
  }

  /** Consent, over every life of every query: whenever the remote model is called it is as the
      preview showed or with the text as it is, the latter never for a change, and for a remedy
      neither. */
  lemma NothingLeavesUnagreed(e: Env, localReady: bool, i: nat)
    ensures var log := Dispatched(e, Fresh(localReady)).s.log;
      i < |log| && log[i].LeftDevice? ==>
        && !e.query.remedy
        && (|| AsShown(e.scrub, log, i)
            || (!e.query.mutation && AsItIs(e.query.text, if AtHome(e) then Remote else Local,
                                            !AtHome(e) && e.remoteReady, log, i)))
  {
    WantedMeans(e);
    var log := Dispatched(e, Fresh(localReady)).s.log;
    LifeIsLawful(e, localReady);
    if i < |log| && log[i].LeftDevice? {
      PreviewStays(Wanted(e), log, i);
      Departure(Wanted(e), log, i);
    }
  }

  /** What is wanted on the device leaves it only straight after a yes. */
  lemma HomeIsKept(e: Env, localReady: bool, i: nat)
    requires AtHome(e)
    ensures var log := Dispatched(e, Fresh(localReady)).s.log;
      i < |log| && log[i].LeftDevice? ==>
        && i >= 2 && log[i - 1] == Answered(true) && e.remoteReady
        && (|| (log[i] == LeftDevice(log[i].sent, [], "") && log[i - 2] == Ask(Escalate(log[i].sent)))
            || (log[i].sent == e.query.text && log[i - 2] == Ask(Route(Remote))))
  {
    WantedMeans(e);
    LifeIsLawful(e, localReady);
    var log := Dispatched(e, Fresh(localReady)).s.log;
    if i < |log| && log[i].LeftDevice? { NothingLeavesUnasked(Wanted(e), log, i); }
  }

  /** A read wanted on the remote chain, where that can be had, leaves as it is without a question, and
      has left whenever it came back normally. */
  lemma AbroadIsReached(e: Env, localReady: bool)
    requires !AtHome(e) && e.remoteReady && !e.query.remedy && !e.query.mutation
    ensures var log := Dispatched(e, Fresh(localReady)).s.log;
      forall i :: 0 <= i < |log| && log[i].LeftDevice? ==>
        log[i].sent == e.query.text && forall j :: 0 <= j < i ==> !log[j].Ask?
    ensures var life := Dispatched(e, Fresh(localReady));
      life.inner == Resumes && life.fate != Never ==> exists i :: 0 <= i < |life.s.log| && life.s.log[i].LeftDevice?
  {
    var life := Dispatched(e, Fresh(localReady));
    WantedMeans(e);
    LifeIsLawful(e, localReady);
    forall i | 0 <= i < |life.s.log| && life.s.log[i].LeftDevice?
      ensures life.s.log[i].sent == e.query.text && forall j :: 0 <= j < i ==> !life.s.log[j].Ask?
    {
      UnaskedAbroad(Wanted(e), life.s.log, i);
    }
    if life.inner == Resumes && life.fate != Never {
      NormalAbroad(e, localReady);
      var i := FoldLeft(Wanted(e), life.s.log);
    }
  }

  /** A read that came back normally was offered to the remote chain if and only if it came to the local
      one, there was another, and the local model, asked whether it can answer, was not sure. */
  lemma OnlyTheDoubtedIsOffered(e: Env, localReady: bool)
    requires !e.query.remedy && !e.query.mutation && Dispatched(e, Fresh(localReady)).inner == Resumes
    ensures var s := Waited(e, Fresh(localReady)).s;
      Now(Dispatched(e, Fresh(localReady)).s).preview.Some? <==> Doubted(e, Classified(e, s).s)
  {
    var s := Waited(e, Fresh(localReady)).s;
    assert Unasked(e, s);
    RanQueryKeeps(e, s);
  }

  lemma NormalAbroad(e: Env, localReady: bool)
    requires !AtHome(e) && e.remoteReady && !e.query.remedy && !e.query.mutation
    requires Dispatched(e, Fresh(localReady)).inner == Resumes
    ensures Now(Dispatched(e, Fresh(localReady)).s).left.Some?
  {
    WantedMeans(e);
    var s := Waited(e, Fresh(localReady)).s;
    assert Unasked(e, s);
    RanQueryKeeps(e, s);
  }

  // ---------------------------------------------------------------- three lives

  /** A wait that comes back with nothing in it, the local model being ready. */
  const PLAIN := Await(Resumes, false, Ends, "", [], true)

  /** A query wanted on the remote chain, which is not usable, while the local one is ready:
      the question is answered with yes, and the remote model fails. */
  function UnusableEnv(text: string, history: seq<string>, context: string): Env {
    Env(Config(true, Remote), Query(text, Some(Remote), {}, false, false, false, None), false, x => x,
        [PLAIN, PLAIN, PLAIN, PLAIN, PLAIN.(yes := true), PLAIN.(items := history), PLAIN.(text := context),
         PLAIN.(fate := Known), PLAIN])
  }

  /** The model that was called fails before it says anything. */
  lemma FailedAtOnce(e: Env, s: State, chain: Chain, text: string, escalated: bool)
    requires s.at < |e.awaits| && e.awaits[s.at].fate == Known
    ensures Concluded(e, s, chain, text, escalated) == Out(Waited(e, s).s, Known)
  {
  }

  const YES_TO_LOCAL := State(5, true, [Status, Ask(Route(Local)), Answered(true)], [])

  lemma UnusableIsAgreedTo(text: string, history: seq<string>, context: string)
    ensures AppliedDecision(UnusableEnv(text, history, context), State(2, true, [], []), Decision(Local, ConfirmRemote))
         == Chosen(YES_TO_LOCAL, Resumes, Some(Remote))
  {
    var e := UnusableEnv(text, history, context);
    var s3 := State(3, true, [Status], []);
    assert Sent(e, State(2, true, [], []), Status) == Out(s3, Resumes);
    assert Confirmed(e, s3, Route(Local)) == Replied(YES_TO_LOCAL, Resumes, true);
  }

  lemma UnusableIsRun(text: string, history: seq<string>, context: string)
    ensures var left := LeftDevice(text, history, BETWEEN + context);
      RanRemote(UnusableEnv(text, history, context), YES_TO_LOCAL, None)
      == Out(State(8, true, YES_TO_LOCAL.log + [left], []), Known)
  {
    var left := LeftDevice(text, history, BETWEEN + context);
    var called := State(7, true, YES_TO_LOCAL.log + [left], []);
    FailedAtOnce(UnusableEnv(text, history, context), called, Remote, text, false);
  }

  /** A yes to using the local model instead does call the unusable remote one, and with the
      text as it is. */
  lemma UnusableIsCalled(text: string, history: seq<string>, context: string)
    ensures Dispatched(UnusableEnv(text, history, context), Fresh(true)).s.log
         == [Status, Ask(Route(Local)), Answered(true), LeftDevice(text, history, BETWEEN + context), Error]
  {
    var e := UnusableEnv(text, history, context);
    UnusableIsAgreedTo(text, history, context);
    UnusableIsRun(text, history, context);
    assert Resolve(Wanted(e).desired, true, e.remoteReady) == Decision(Local, ConfirmRemote);
    assert RanQuery(e, State(1, true, [], [])) == RanRead(e, State(2, true, [], []));
  }

  /** A request for a setting that cannot be changed, whose closing send is cancelled. */
  function TwiceClosedEnv(text: string): Env {
    Env(Config(false, Remote), Query(text, None, {}, false, false, true, Some(Toggle)), true, x => x,
        [PLAIN, PLAIN, PLAIN.(fate := Cancel), PLAIN])
  }

  /** A query can be closed twice. */
  lemma ClosedTwice(text: string)
    ensures Dispatched(TwiceClosedEnv(text), Fresh(true)).s.log == [Delta(NO_TOGGLE), Done(Some(Local)), Done(None)]
  {
    var e := TwiceClosedEnv(text);
    var s3 := State(3, true, [Delta(NO_TOGGLE), Done(Some(Local))], [Own(Cancel)]);
    assert SaidAndClosed(e, State(1, true, [], []), NO_TOGGLE) == Out(s3, Cancel);
  }

  /** And one that is cancelled while it waits for its session's lock is not closed at all. */
  lemma NeverClosed(query: Query, cfg: Config, remoteReady: bool)
    ensures var life := Dispatched(Env(cfg, query, remoteReady, x => x, [PLAIN.(fate := Cancel)]), Fresh(true));
      life.fate == Cancel && life.s.log == []
  {
  }

  /** A change of which redaction leaves nothing: nothing is what the preview shows. */
  function EmptiedEnv(text: string): Env {
    Env(Config(false, Remote), Query(text, None, {}, false, false, true, None), true, x => "",
        [PLAIN, PLAIN, PLAIN.(yes := true), PLAIN.(fate := Known), PLAIN])
  }

  lemma EmptiedPreview(text: string)
    ensures Previewing(EmptiedEnv(text), State(1, true, [Redacted("")], []), "", false)
         == Out(State(4, true, [Redacted(""), Ask(Escalate("")), Answered(true), LeftDevice("", [], "")], []), Known)
  {
    var e := EmptiedEnv(text);
    var s1 := State(1, true, [Redacted("")], []);
    var s3 := State(3, true, [Redacted(""), Ask(Escalate("")), Answered(true)], []);
    assert Confirmed(e, s1, Escalate("")) == Replied(s3, Resumes, true);
    var s4 := s3.(log := s3.log + [LeftDevice("", [], "")]);
    FailedAtOnce(e, s4, Remote, "", true);
  }

  lemma EmptiedOffer(text: string)
    ensures OfferedEscalation(EmptiedEnv(text), State(1, true, [], []), false)
         == Out(State(4, true, [Redacted(""), Ask(Escalate("")), Answered(true), LeftDevice("", [], "")], []), Known)
  {
    var e := EmptiedEnv(text);
    assert Cleaned(e, State(1, true, [], [])) == Told(State(1, true, [], []), Resumes, "");
    assert Noted(State(1, true, [], []), Redacted("")) == State(1, true, [Redacted("")], []);
    EmptiedPreview(text);
  }

  /** And nothing is what leaves; it does not fall back to the text. */
  lemma EmptyIsSent(text: string)
    ensures Dispatched(EmptiedEnv(text), Fresh(true)).s.log
         == [Redacted(""), Ask(Escalate("")), Answered(true), LeftDevice("", [], ""), Error]
  {
    EmptiedOffer(text);
    var e := EmptiedEnv(text);
    assert RanQuery(e, State(1, true, [], [])) == OfferedEscalation(e, State(1, true, [], []), false);
  }
}

/**
 What happens in one query, in order, and the law of it: what may leave the device after
 which question and answer, what may be recorded, and how a query is closed. Closing messages
 are noted when they are attempted.
 */
module QueryLog {
  import opened Options
  import opened Strings
  import opened Routing

  /** What a question is about; the preview shows the text that would leave. */
  datatype Topic = Escalate(shown: string) | Route(offered: Chain) | Fix | Tool

  datatype Event =
    | Status
    | Delta(text: string)
    | Redacted(text: string)                                              // what redaction made of the query
    | Ask(topic: Topic)
    | Answered(yes: bool)
    | LeftDevice(sent: string, history: seq<string>, context: string)     // the remote model is called
    | Returned(result: string, sent: string)                              // a tool's result goes there
    | AskedHere(text: string, facts: string)                              // the local model is called
    | Remembered(user: bool, text: string)                                // one side of the exchange
    | Recorded(chain: Chain, text: string, answer: string, escalated: bool)
    | Acted(result: string)                                               // a change or a restart is over
    | Done(ran: Option<Chain>)
    | Error

  predicate IsTerminal(e: Event) { e.Done? || e.Error? }

  datatype Intended = AppChange | Toggle

  /** What the query asks for: to set something right again, a change, or an answer. */
  datatype Kind = Remedy | Change(action: Option<Intended>) | Read

  /** Where the query is wanted, which chains there are at all, what it asks for, whether facts of the
      machine go with it, the text, and the deterministic scrub. */
  datatype Wish = Wish(desired: Chain, remoteReady: bool, hasLocal: bool, kind: Kind, matched: bool, text: string,
                       scrub: string -> string)

  const NO_FACTS := "I couldn't check that right now."
  const NO_FRONTIER := "I can't make that change on my own yet."
  const DECLINED := "Okay, keeping this on your device."
  const NO_TOGGLE := "I can only install and remove apps for now."
  const NOT_DONE := "Cancelled — no changes were made."

  /** What the events so far amount to. */
  datatype Desk = Desk(
    asked: Option<Topic>,        // the last question
    waiting: bool,               // it was the last event
    answer: Option<bool>,        // the answer, when that was the last event
    preview: Option<bool>,       // the answer to the preview of what would leave
    switched: Option<bool>,      // the answer to the question about the other chain
    redacted: Option<string>,
    left: Option<string>,        // the text that left
    here: bool,
    remembered: nat,             // the sides of the exchange in the history
    recorded: bool,
    said: string,
    told: bool,                  // something was said at all
    acted: Option<string>,
    closed: nat)

  const EMPTY := Desk(None, false, None, None, None, None, None, false, 0, false, "", false, None, 0)

  function After(d: Desk, e: Event): Desk {
    Desk(
      if e.Ask? then Some(e.topic) else d.asked,
      e.Ask?,
      if e.Answered? then Some(e.yes) else None,
      if e.Answered? && Previewed(d) then Some(e.yes) else d.preview,
      if e.Answered? && d.asked.Some? && d.asked.value.Route? then Some(e.yes) else d.switched,
      if e.Redacted? then Some(e.text) else d.redacted,
      if e.LeftDevice? then Some(e.sent) else d.left,
      d.here || e.AskedHere?,
      if e.Remembered? then d.remembered + 1 else d.remembered,
      d.recorded || e.Recorded?,
      if e.Delta? then d.said + e.text else d.said,
      d.told || e.Delta?,
      if e.Acted? then Some(e.result) else d.acted,
      if IsTerminal(e) then d.closed + 1 else d.closed)
  }

  function Fold(log: seq<Event>): Desk {
    if log == [] then EMPTY else After(Fold(log[..|log| - 1]), log[|log| - 1])
  }

  predicate Previewed(d: Desk) { d.asked.Some? && d.asked.value.Escalate? }

  /** After a preview only what it showed may leave, without history and context, and only on a
      yes. The text itself may leave where it was wanted and can be had, or on a yes to going
      to the other chain. */
  predicate Consented(d: Desk, w: Wish, sent: string, history: seq<string>, context: string) {
    if Previewed(d) then d.answer == Some(true) && sent == d.asked.value.shown && history == [] && context == ""
    else
      && sent == w.text
      && if d.asked == None then w.desired == Remote && w.remoteReady
         else d.asked == Some(Route(Other(w.desired))) && d.answer == Some(true)
  }

  /** The text that the model was asked. */
  function Asked(d: Desk, w: Wish): string { if d.left.Some? then d.left.value else w.text }

  /** No model has been called. */
  predicate Uncalled(d: Desk) { d.left == None && !d.here }

  /** A preview is for a change that nothing simpler does, or for a read wanted on the device which the
      local model judged. */
  predicate MayPreview(w: Wish) {
    w.remoteReady && (w.kind == Change(None) || (w.kind == Read && w.hasLocal && w.desired == Local))
  }

  /** The package list is changed, or a unit restarted. */
  predicate MayAct(w: Wish) { w.kind == Remedy || w.kind == Change(Some(AppChange)) }

  predicate MayAsk(d: Desk, topic: Topic, w: Wish) {
    match topic
    case Escalate(shown) => MayPreview(w) && d.redacted == Some(shown) && Uncalled(d)
    case Route(offered) =>
      && w.kind == Read && offered == Other(w.desired) && (w.remoteReady <==> offered == Remote) && Uncalled(d)
    case Fix => MayAct(w)
    case Tool => d.left.Some?
  }

  /** The local model may answer a read that is not wanted where the remote one is, and that was
      not agreed to leave. */
  predicate MayAnswerHere(d: Desk, w: Wish) {
    && w.kind == Read && !(w.desired == Remote && w.remoteReady)
    && d.answer != Some(true) && d.switched != Some(true) && d.preview != Some(true)
  }

  /** What may be said by no model. */
  predicate PlainWord(d: Desk, text: string, w: Wish) {
    || d.acted == Some(text)
    || (text == NO_FACTS && MayAnswerHere(d, w) && w.matched && w.hasLocal)
    || (text == NO_FRONTIER && w.kind == Change(None) && !w.remoteReady)
    || (text == DECLINED && w.kind == Change(None) && d.preview == Some(false))
    || (text == NO_TOGGLE && w.kind == Change(Some(Toggle)))
  }

  /** Whether `e` may happen now. */
  predicate Allowed(d: Desk, e: Event, w: Wish) {
    && (d.closed > 0 ==> IsTerminal(e))
    && match e
       case Status => Uncalled(d)
       case Delta(text) => Uncalled(d) ==> PlainWord(d, text, w)
       case Redacted(text) => Uncalled(d) && MayPreview(w) && (!w.hasLocal ==> text == w.scrub(w.text))
       case Ask(topic) => MayAsk(d, topic, w)
       case Answered(_) => d.waiting
       case LeftDevice(sent, history, context) =>
         Uncalled(d) && w.kind != Remedy && (w.kind.Change? ==> Previewed(d)) && Consented(d, w, sent, history, context)
       case Returned(result, sent) =>
         && d.left.Some? && (sent == if d.preview == Some(true) then w.scrub(result) else result)
         && (d.asked == Some(Tool) && d.answer == Some(false) ==> result == NOT_DONE)
       case AskedHere(text, facts) =>
         && Uncalled(d) && MayAnswerHere(d, w) && text == w.text
         && if w.matched && w.hasLocal then Strip(facts) != "" else facts == ""
       case Remembered(user, text) =>
         !Uncalled(d) && d.remembered == (if user then 0 else 1) && text == if user then Asked(d, w) else d.said
       case Recorded(chain, text, answer, escalated) =>
         && !d.recorded && d.remembered == 2 && !Uncalled(d)
         && (chain == Remote <==> d.left.Some?) && text == Asked(d, w) && answer == d.said
         && (escalated <==> d.left.Some? && d.preview == Some(true))
       case Acted(_) => MayAct(w)
       case Done(ran) =>
         ran.Some? ==> (ran.value == Remote <==> d.left.Some?) && if Uncalled(d) then d.told else d.recorded
       case Error => true
  }

  ghost predicate AllowedAt(w: Wish, log: seq<Event>, i: nat) {
    i < |log| && Allowed(Fold(log[..i]), log[i], w)
  }

  ghost predicate Lawful(w: Wish, log: seq<Event>) {
    forall i :: 0 <= i < |log| ==> AllowedAt(w, log, i)
  }

  lemma Append(w: Wish, log: seq<Event>, e: Event)
    requires Lawful(w, log) && Allowed(Fold(log), e, w)
    ensures Lawful(w, log + [e]) && Fold(log + [e]) == After(Fold(log), e)
  {
    var t := log + [e];
    assert t[..|log|] == log;
    forall i | 0 <= i < |t| ensures AllowedAt(w, t, i) {
      assert t[..i] == log[..i];
      if i < |log| { assert AllowedAt(w, log, i); }
    }
  }

  // ---------------------------------------------------------------- what a lawful log says

  lemma PrefixIsLawful(w: Wish, log: seq<Event>, n: nat)
    requires Lawful(w, log) && n <= |log|
    ensures Lawful(w, log[..n])
  {
    forall i | 0 <= i < n ensures AllowedAt(w, log[..n], i) {
      assert log[..n][..i] == log[..i];
      assert AllowedAt(w, log, i);
    }
  }

  /** The closing messages are the last events, and are as many as were counted. */
  lemma {:induction false} ClosingIsLast(w: Wish, log: seq<Event>)
    requires Lawful(w, log)
    ensures Fold(log).closed <= |log|
    ensures forall i :: 0 <= i < |log| ==> (IsTerminal(log[i]) <==> i >= |log| - Fold(log).closed)
  {
    if log != [] {
      var n := |log| - 1;
      PrefixIsLawful(w, log, n);
      ClosingIsLast(w, log[..n]);
      assert AllowedAt(w, log, n);
      forall i | 0 <= i < |log| ensures IsTerminal(log[i]) <==> i >= |log| - Fold(log).closed {
        if i < n { assert log[..n][i] == log[i]; }
      }
    }
  }

  lemma AnswerNeedsQuestion(w: Wish, d: Desk, yes: bool)
    requires Allowed(d, Answered(yes), w)
    ensures d.waiting
  {
  }

  lemma WaitingIsAsked(log: seq<Event>)
    requires Fold(log).waiting
    ensures log != [] && Fold(log).asked.Some? && log[|log| - 1] == Ask(Fold(log).asked.value)
  {
  }

  lemma AnswerIsLast(log: seq<Event>)
    requires Fold(log).answer.Some?
    ensures log != [] && log[|log| - 1] == Answered(Fold(log).answer.value)
    ensures Fold(log).asked == Fold(log[..|log| - 1]).asked
  {
  }

  lemma WasAsked(w: Wish, log: seq<Event>, i: nat, yes: bool)
    requires AllowedAt(w, log, i) && log[i] == Answered(yes)
    ensures Fold(log[..i]).waiting
  {
    AnswerNeedsQuestion(w, Fold(log[..i]), yes);
  }

  lemma QuestionBefore(log: seq<Event>)
    requires Fold(log).answer.Some? && log != [] && Fold(log[..|log| - 1]).waiting
    ensures |log| >= 2 && Fold(log).asked.Some?
    ensures log[|log| - 2] == Ask(Fold(log).asked.value) && log[|log| - 1] == Answered(Fold(log).answer.value)
  {
    AnswerIsLast(log);
    WaitingIsAsked(log[..|log| - 1]);
  }

  lemma AnswerWaited(w: Wish, log: seq<Event>)
    requires Lawful(w, log) && log != [] && log[|log| - 1].Answered?
    ensures Fold(log[..|log| - 1]).waiting
  {
    assert AllowedAt(w, log, |log| - 1);
    WasAsked(w, log, |log| - 1, log[|log| - 1].yes);
  }

  lemma LastQuestion(w: Wish, log: seq<Event>)
    requires Lawful(w, log) && Fold(log).answer.Some?
    ensures |log| >= 2 && Fold(log).asked.Some?
    ensures log[|log| - 2] == Ask(Fold(log).asked.value) && log[|log| - 1] == Answered(Fold(log).answer.value)
  {
    AnswerIsLast(log);
    AnswerWaited(w, log);
    QuestionBefore(log);
  }

  /** The last redaction in `log`, at `j`, made `text`. */
  ghost predicate LastRedactionAt(log: seq<Event>, j: nat, text: string) {
    j < |log| && log[j] == Redacted(text) && forall k :: j < k < |log| ==> !log[k].Redacted?
  }

  ghost predicate LastRedaction(log: seq<Event>, text: string) { exists j :: LastRedactionAt(log, j, text) }

  lemma {:induction false} FoldRedacted(log: seq<Event>) returns (j: nat)
    requires Fold(log).redacted.Some?
    ensures LastRedactionAt(log, j, Fold(log).redacted.value)
  {
    var n := |log| - 1;
    if log[n].Redacted? {
      j := n;
    } else {
      j := FoldRedacted(log[..n]);
      forall k | j < k < |log| ensures !log[k].Redacted? {
        if k < n { assert log[..n][k] == log[k]; }
      }
    }
  }

  /** What was shown is what redaction made of the query, and, after a yes, it is all that
      leaves: the very text, be it empty, and neither history nor context. */
  lemma ShownIsSent(w: Wish, log: seq<Event>, i: nat)
    requires Lawful(w, log) && i + 2 < |log| && log[i].Ask? && log[i].topic.Escalate?
    requires log[i + 1].Answered? && log[i + 2].LeftDevice?
    ensures log[i + 1].yes && log[i + 2] == LeftDevice(log[i].topic.shown, [], "")
    ensures LastRedaction(log[..i], log[i].topic.shown)
  {
    assert AllowedAt(w, log, i);
    assert AllowedAt(w, log, i + 2);
    assert log[..i + 2][..i + 1] == log[..i + 1];
    assert Fold(log[..i + 1]).asked == Some(log[i].topic);
    var j := FoldRedacted(log[..i]);
  }

  /** A query wanted on the device calls the remote model only straight after a yes: to the
      preview, and then only the text shown goes; or to the question whether to use the remote
      model meanwhile, and then the text goes as it is. */
  lemma NothingLeavesUnasked(w: Wish, log: seq<Event>, i: nat)
    requires w.desired == Local && Lawful(w, log) && i < |log| && log[i].LeftDevice?
    ensures i >= 2 && log[i - 1] == Answered(true) && w.remoteReady
    ensures || (log[i] == LeftDevice(log[i].sent, [], "") && log[i - 2] == Ask(Escalate(log[i].sent))
                && LastRedaction(log[..i - 2], log[i].sent))
            || (log[i].sent == w.text && log[i - 2] == Ask(Route(Remote)))
  {
    assert AllowedAt(w, log, i);
    PrefixIsLawful(w, log, i);
    LastQuestion(w, log[..i]);
    assert AllowedAt(w, log, i - 2);
    if log[i - 2] != Ask(Route(Remote)) { ShownIsSent(w, log, i - 2); }
  }

  /** A yes to a change of chain is followed by the remote model, if by any: what was offered
      is what runs if and only if the query was wanted on the device. Otherwise the remote
      model is called although it was known not to be usable. */
  lemma YesRunsRemote(w: Wish, log: seq<Event>, i: nat, c: Chain)
    requires Lawful(w, log) && i + 2 < |log|
    requires log[i] == Ask(Route(c)) && log[i + 1] == Answered(true)
    requires log[i + 2].LeftDevice? || log[i + 2].AskedHere?
    ensures log[i + 2].LeftDevice?
    ensures c == Remote <==> w.desired == Local
    ensures c == Remote <==> w.remoteReady
  {
    assert AllowedAt(w, log, i);
    assert AllowedAt(w, log, i + 2);
    assert log[..i + 2][..i + 1] == log[..i + 1];
  }

  /** And that is the only way it is ever called when it is not usable. */
  lemma UnusableRemote(w: Wish, log: seq<Event>, i: nat)
    requires Lawful(w, log) && i < |log| && log[i].LeftDevice? && !w.remoteReady
    ensures w.desired == Remote && i >= 2 && log[i - 1] == Answered(true) && log[i - 2] == Ask(Route(Local))
    ensures log[i].sent == w.text
  {
    assert AllowedAt(w, log, i);
    PrefixIsLawful(w, log, i);
    LastQuestion(w, log[..i]);
    assert AllowedAt(w, log, i - 2);
  }

  /** Once the text has left, no preview is asked or answered any more. */
  lemma {:induction false} PreviewStays(w: Wish, log: seq<Event>, j: nat)
    requires Lawful(w, log) && j < |log| && log[j].LeftDevice?
    ensures Fold(log).preview == Fold(log[..j]).preview && Fold(log).left.Some?
    ensures Fold(log).waiting ==> !Previewed(Fold(log))
  {
    var n := |log| - 1;
    assert AllowedAt(w, log, n);
    if j < n {
      PrefixIsLawful(w, log, n);
      assert log[..n][..j] == log[..j];
      PreviewStays(w, log[..n], j);
    }
  }

  /** After a yes to the preview every tool result is scrubbed before it follows. */
  lemma ResultsAreScrubbed(w: Wish, log: seq<Event>, i: nat, j: nat)
    requires Lawful(w, log) && i + 2 < j < |log| && log[i].Ask? && log[i].topic.Escalate?
    requires log[i + 1].Answered? && log[i + 2].LeftDevice? && log[j].Returned?
    ensures log[j].sent == w.scrub(log[j].result)
  {
    ShownIsSent(w, log, i);
    assert log[..i + 2][..i + 1] == log[..i + 1];
    assert Fold(log[..i + 1]).asked == Some(log[i].topic);
    PrefixIsLawful(w, log, j);
    assert log[..j][..i + 2] == log[..i + 2];
    PreviewStays(w, log[..j], i + 2);
    assert AllowedAt(w, log, j);
  }

  /** Without a question there is no answer to one. */
  lemma {:induction false} NeverAsked(log: seq<Event>)
    requires Fold(log).asked == None
    ensures Fold(log).preview == None && forall j :: 0 <= j < |log| ==> !log[j].Ask?
  {
    if log != [] {
      var n := |log| - 1;
      NeverAsked(log[..n]);
      forall j | 0 <= j < |log| ensures !log[j].Ask? {
        if j < n { assert log[..n][j] == log[j]; }
      }
    }
  }

  lemma {:induction false} SwitchedStays(log: seq<Event>, i: nat)
    requires i <= |log| && Fold(log[..i]).switched.Some?
    ensures Fold(log).switched.Some?
  {
    if i == |log| {
      assert log[..i] == log;
    } else {
      assert log[..|log| - 1][..i] == log[..i];
      SwitchedStays(log[..|log| - 1], i);
    }
  }

  /** The remote model was called at `i` straight after a yes to the preview: with the very text
      it showed, which is what redaction made of the query, with nothing else, and with each
      tool's result scrubbed from then on. */
  ghost predicate AsShown(scrub: string -> string, log: seq<Event>, i: nat)
    requires i < |log| && log[i].LeftDevice?
  {
    var sent := log[i].sent;
    && i >= 2 && log[i - 1] == Answered(true) && log[i - 2] == Ask(Escalate(sent))
    && log[i] == LeftDevice(sent, [], "") && LastRedaction(log[..i - 2], sent)
    && forall j :: i < j < |log| && log[j].Returned? ==> log[j].sent == scrub(log[j].result)
  }

  /** The remote model was called with `text`: straight after a yes to using the chain `offered`,
      or, if `unasked` allows it, before anyone had asked anything. */
  ghost predicate AsItIs(text: string, offered: Chain, unasked: bool, log: seq<Event>, i: nat)
    requires i < |log| && log[i].LeftDevice?
  {
    && log[i].sent == text
    && (|| (i >= 2 && log[i - 1] == Answered(true) && log[i - 2] == Ask(Route(offered)))
        || (unasked && forall j :: 0 <= j < i ==> !log[j].Ask?))
  }

  ghost predicate AsWanted(w: Wish, log: seq<Event>, i: nat)
    requires i < |log| && log[i].LeftDevice?
  {
    AsItIs(w.text, Other(w.desired), w.desired == Remote && w.remoteReady, log, i)
  }

  lemma Departure(w: Wish, log: seq<Event>, i: nat)
    requires Lawful(w, log) && i < |log| && log[i].LeftDevice?
    ensures AsShown(w.scrub, log, i) || AsWanted(w, log, i)
    ensures Fold(log[..i]).preview == Some(true) && Fold(log).switched == None ==> AsShown(w.scrub, log, i)
  {
    if Fold(log[..i]).asked == None {
      DepartureUnasked(w, log, i);
    } else {
      DepartureAnswered(w, log, i);
    }
  }

  lemma DepartureUnasked(w: Wish, log: seq<Event>, i: nat)
    requires Lawful(w, log) && i < |log| && log[i].LeftDevice? && Fold(log[..i]).asked == None
    ensures AsWanted(w, log, i) && Fold(log[..i]).preview == None
  {
    assert AllowedAt(w, log, i);
    NeverAsked(log[..i]);
    assert forall j :: 0 <= j < i ==> log[..i][j] == log[j];
  }

  /** When the remote model is called after a question, that was answered with yes just before. */
  lemma DepartureAgreed(w: Wish, log: seq<Event>, i: nat)
    requires AllowedAt(w, log, i) && log[i].LeftDevice? && Fold(log[..i]).asked.Some?
    ensures Fold(log[..i]).answer == Some(true)
    ensures !Previewed(Fold(log[..i])) ==>
      log[i].sent == w.text && Fold(log[..i]).asked == Some(Route(Other(w.desired)))
  {
  }

  lemma AgreedJustBefore(w: Wish, log: seq<Event>, i: nat)
    requires Lawful(w, log) && i < |log| && log[i].LeftDevice? && Fold(log[..i]).asked.Some?
    ensures i >= 2 && log[i - 1] == Answered(true) && log[i - 2] == Ask(Fold(log[..i]).asked.value)
    ensures Fold(log[..i]).asked.value.Escalate?
      || (log[i].sent == w.text && log[i - 2] == Ask(Route(Other(w.desired))) && Fold(log[..i]).switched.Some?)
  {
    assert AllowedAt(w, log, i);
    DepartureAgreed(w, log, i);
    PrefixIsLawful(w, log, i);
    LastQuestion(w, log[..i]);
    if !Fold(log[..i]).asked.value.Escalate? { AnsweredSwitch(log[..i]); }
  }

  lemma DepartureAnswered(w: Wish, log: seq<Event>, i: nat)
    requires Lawful(w, log) && i < |log| && log[i].LeftDevice? && Fold(log[..i]).asked.Some?
    ensures AsShown(w.scrub, log, i) || (AsWanted(w, log, i) && Fold(log).switched.Some?)
  {
    AgreedJustBefore(w, log, i);
    if log[i - 2].topic.Escalate? {
      DepartureAsShown(w, log, i);
    } else {
      SwitchedStays(log, i);
    }
  }

  /** A read wanted on the remote chain, where that can be had, is asked about by nobody before it
      leaves. */
  lemma UnaskedAbroad(w: Wish, log: seq<Event>, i: nat)
    requires w.kind == Read && w.desired == Remote && w.remoteReady
    requires Lawful(w, log) && i < |log| && log[i].LeftDevice?
    ensures log[i].sent == w.text && forall j :: 0 <= j < i ==> !log[j].Ask?
  {
    assert AllowedAt(w, log, i);
    forall j | 0 <= j < i ensures !log[j].Ask? { AskedBeforeLeft(w, log, i, j); }
    PrefixIsLawful(w, log, i);
    if Previewed(Fold(log[..i])) { LastQuestion(w, log[..i]); }
  }

  lemma AskedBeforeLeft(w: Wish, log: seq<Event>, i: nat, j: nat)
    requires w.kind == Read && w.desired == Remote && w.remoteReady
    requires Lawful(w, log) && j < i < |log| && Fold(log[..i]).left == None
    ensures !log[j].Ask?
  {
    assert AllowedAt(w, log, j);
    LeftStays(log[..i], j);
    assert log[..i][..j] == log[..j];
  }

  lemma {:induction false} LeftStays(log: seq<Event>, j: nat)
    requires j <= |log| && Fold(log).left == None
    ensures Fold(log[..j]).left == None
  {
    if j == |log| {
      assert log[..j] == log;
    } else {
      assert log[..|log| - 1][..j] == log[..j];
      LeftStays(log[..|log| - 1], j);
    }
  }

  lemma AnsweredSwitch(log: seq<Event>)
    requires log != [] && log[|log| - 1].Answered? && Fold(log).asked.Some? && Fold(log).asked.value.Route?
    ensures Fold(log).switched.Some?
  {
  }

  lemma DepartureAsShown(w: Wish, log: seq<Event>, i: nat)
    requires Lawful(w, log) && 2 <= i < |log| && log[i].LeftDevice?
    requires log[i - 2].Ask? && log[i - 2].topic.Escalate? && log[i - 1].Answered?
    ensures AsShown(w.scrub, log, i)
  {
    ShownIsSent(w, log, i - 2);
    forall j | i < j < |log| && log[j].Returned? ensures log[j].sent == w.scrub(log[j].result) {
      ResultsAreScrubbed(w, log, i - 2, j);
    }
  }

  /** A tool that was not agreed to is not put to work: what the model is given is that it was not. */
  lemma DeclinedToolIsIdle(w: Wish, log: seq<Event>, i: nat)
    requires Lawful(w, log) && i + 2 < |log|
    requires log[i] == Ask(Tool) && log[i + 1] == Answered(false) && log[i + 2].Returned?
    ensures log[i + 2].result == NOT_DONE
  {
    assert AllowedAt(w, log, i + 2);
    assert log[..i + 2][..i + 1] == log[..i + 1] && log[..i + 1][..i] == log[..i];
    var d := Fold(log[..i + 2]);
    assert Fold(log[..i + 1]) == After(Fold(log[..i]), Ask(Tool));
    assert d == After(Fold(log[..i + 1]), Answered(false));
  }

  function Said(log: seq<Event>): string {
    if log == [] then ""
    else Said(log[..|log| - 1]) + if log[|log| - 1].Delta? then log[|log| - 1].text else ""
  }

  lemma {:induction false} FoldSaid(log: seq<Event>)
    ensures Fold(log).said == Said(log)
  {
    if log != [] { FoldSaid(log[..|log| - 1]); }
  }

  /** Where the remote model was called, the fold tells, and it tells nothing else. */
  lemma {:induction false} FoldLeft(w: Wish, log: seq<Event>) returns (i: nat)
    requires Lawful(w, log) && Fold(log).left.Some?
    ensures i < |log| && log[i].LeftDevice? && log[i].sent == Fold(log).left.value
    ensures forall j :: 0 <= j < |log| && log[j].LeftDevice? ==> j == i
  {
    var n := |log| - 1;
    PrefixIsLawful(w, log, n);
    if log[n].LeftDevice? {
      i := n;
      assert AllowedAt(w, log, n);
      NotLeft(log[..n]);
      assert forall j :: 0 <= j < n ==> log[..n][j] == log[j];
    } else {
      assert Fold(log).left == Fold(log[..n]).left;
      i := FoldLeft(w, log[..n]);
      forall j | 0 <= j < |log| && log[j].LeftDevice? ensures j == i {
        assert log[..n][j] == log[j];
      }
    }
  }

  lemma {:induction false} NotLeft(log: seq<Event>)
    requires Fold(log).left == None
    ensures forall j :: 0 <= j < |log| ==> !log[j].LeftDevice?
  {
    if log != [] {
      var n := |log| - 1;
      NotLeft(log[..n]);
      forall j | 0 <= j < |log| ensures !log[j].LeftDevice? {
        if j < n { assert log[..n][j] == log[j]; }
      }
    }
  }

  /** What is recorded is what was said, and, for the remote chain, the very text that left;
      for the local chain nothing left, and the text is the query's. */
  lemma RecordIsHonest(w: Wish, log: seq<Event>, k: nat) returns (i: nat)
    requires Lawful(w, log) && k < |log| && log[k].Recorded?
    ensures log[k].answer == Said(log[..k])
    ensures log[k].chain == Remote ==> i < k && log[i].LeftDevice? && log[i].sent == log[k].text
    ensures log[k].chain == Local ==> log[k].text == w.text && forall j :: 0 <= j < k ==> !log[j].LeftDevice?
  {
    assert AllowedAt(w, log, k);
    PrefixIsLawful(w, log, k);
    FoldSaid(log[..k]);
    i := 0;
    if log[k].chain == Remote {
      i := FoldLeft(w, log[..k]);
    } else {
      NotLeft(log[..k]);
      forall j | 0 <= j < k ensures !log[j].LeftDevice? { assert log[..k][j] == log[j]; }
    }
  }
}

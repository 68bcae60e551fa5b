/**
 The config-edit transaction: edit a copy, validate it apart, ask, write the file, switch
 the system, and put the file back (and the system, if it had moved) when that fails.
 */
module AppAction {
  import opened Options
  import opened PackageEditor

  // ---------------------------------------------------------------- the file

  /** Reading a file as text turns every line end into a line feed. */
  function Translated(s: string): string {
    if s == [] then []
    else if s[0] != '\r' then [s[0]] + Translated(s[1..])
    else if 1 < |s| && s[1] == '\n' then Translated(s[1..])
    else ['\n'] + Translated(s[1..])
  }

  // ---------------------------------------------------------------- what callers decide

  /** A progress note is delivered, or delivering it raises. */
  datatype Note = Shown | NoteRaises
  datatype Verdict = Valid | Invalid | VerdictRaises
  datatype Suggestion = Suggested(name: string) | SuggestRaises
  datatype Answer = Yes | No | AskRaises
  /** A switch or rollback returns, fails with the error it is documented to raise, or lets
      something else through. */
  datatype Step = Returns | Fails | Escapes

  datatype World = World(
    checking: Note, first: Verdict,
    canSuggest: bool, recovering: Note, suggestion: Suggestion, second: Verdict,
    answer: Answer, applying: Note, before: Option<string>, switch: Step, after: Option<string>,
    canRollback: bool, rollingBack: Note, rollback: Step)

  datatype Reply =
    | NoName | NoFile | CannotEdit(error: EditError) | NothingToDo | NotValid | Cancelled
    | Reverted | RolledBack | RollbackFailed | Done

  datatype Outcome = Said(reply: Reply) | Escaped

  datatype Effect =
    | Validated(text: string) | Confirmed(text: string) | Wrote(text: string)
    | Switched | SwitchFailed | RollbackTried

  // ---------------------------------------------------------------- the transaction as a function

  /** Everything up to the confirm: stop with an outcome, or have a text to apply. */
  datatype Prepared =
    | Stop(outcome: Outcome, trace: seq<Effect>)
    | Ready(edited: string, trace: seq<Effect>)

  function Ask(edited: string, trace: seq<Effect>, w: World): Prepared {
    match w.answer
    case Yes => Ready(edited, trace + [Confirmed(edited)])
    case No => Stop(Said(Cancelled), trace)
    case AskRaises => Stop(Escaped, trace)
  }

  /** The second chance of an install whose name did not evaluate; `edit` is the edit with
      the suggested name. */
  function Recover(original: string, pkg: string, edit: Result<string>, w: World): Prepared {
    if w.recovering.NoteRaises? || w.suggestion.SuggestRaises? then Stop(Escaped, [])
    else if w.suggestion.name == "" || w.suggestion.name == pkg then Stop(Said(NotValid), [])
    else if edit.Err? then Stop(Escaped, [])
    else if edit.value == original then Stop(Said(NotValid), [])
    else match w.second
         case Valid => Ask(edit.value, [Validated(edit.value)], w)
         case Invalid => Stop(Said(NotValid), [])
         case VerdictRaises => Stop(Escaped, [])
  }

  function PrepareFrom(original: string, add: bool, pkg: string, edit: Result<string>,
                       other: Result<string>, w: World): Prepared {
    if edit.Err? then Stop(Said(CannotEdit(edit.error)), [])
    else if edit.value == original then Stop(Said(NothingToDo), [])
    else if w.checking.NoteRaises? then Stop(Escaped, [])
    else match w.first
         case Valid => Ask(edit.value, [Validated(edit.value)], w)
         case Invalid =>
           if add && w.canSuggest then Recover(original, pkg, other, w) else Stop(Said(NotValid), [])
         case VerdictRaises => Stop(Escaped, [])
  }

  function SuggestedEdit(original: string, w: World): Result<string> {
    if w.suggestion.Suggested? then Edit(original, w.suggestion.name, true) else Err(NoList)
  }

  function Prepare(original: string, add: bool, pkg: string, w: World): Prepared {
    PrepareFrom(original, add, pkg, Edit(original, pkg, add), SuggestedEdit(original, w), w)
  }

  datatype Run = Run(outcome: Outcome, text: string, trace: seq<Effect>)

  predicate Moved(w: World) { w.canRollback && w.after != w.before }

  function Commit(original: string, edited: string, w: World): Run {
    if w.applying.NoteRaises? then Run(Escaped, edited, [Wrote(edited)])
    else match w.switch
         case Returns => Run(Said(Done), edited, [Wrote(edited), Switched])
         case Escapes => Run(Escaped, edited, [Wrote(edited)])
         case Fails =>
           var undone := [Wrote(edited), SwitchFailed, Wrote(original)];
           if !Moved(w) then Run(Said(Reverted), original, undone)
           else if w.rollingBack.NoteRaises? then Run(Escaped, original, undone)
           else Run(match w.rollback
                    case Returns => Said(RolledBack)
                    case Fails => Said(RollbackFailed)
                    case Escapes => Escaped,
                    original, undone + [RollbackTried])
  }

  /** `raw` is the file as it is on disk. */
  function Ran(raw: string, add: bool, pkg: string, w: World): Run {
    if pkg == "" then Run(Said(NoName), raw, [])
    else Finish(raw, Prepare(Translated(raw), add, pkg, w), w)
  }

  function Finish(raw: string, p: Prepared, w: World): Run {
    match p
    case Stop(o, trace) => Run(o, raw, trace)
    case Ready(edited, trace) =>
      var run := Commit(Translated(raw), edited, w);
      Run(run.outcome, run.text, trace + run.trace)
  }

  // ---------------------------------------------------------------- the transaction as it is done

  class SourceFile {
    var present: bool
    var text: string
    ghost var trace: seq<Effect>

    constructor (present: bool, text: string)
      ensures this.present == present && this.text == text && trace == []
    {
      this.present, this.text, trace := present, text, [];
    }

    method Note(e: Effect)
      modifies this`trace
      ensures trace == old(trace) + [e]
    {
      trace := trace + [e];
    }

    method Write(t: string)
      modifies this`text, this`trace
      ensures text == t && trace == old(trace) + [Wrote(t)]
    {
      text := t;
      Note(Wrote(t));
    }
  }

  method RunAppAction(src: SourceFile, add: bool, target: string, w: World) returns (o: Outcome)
    modifies src
    ensures src.present == old(src.present)
    ensures !src.present ==>
      src.text == old(src.text) && src.trace == old(src.trace) && o == Said(if target == "" then NoName else NoFile)
    ensures src.present ==>
      var run := Ran(old(src.text), add, target, w);
      o == run.outcome && src.text == run.text && src.trace == old(src.trace) + run.trace
  {
    if target == "" { return Said(NoName); }
    if !src.present { return Said(NoFile); }
    var original := Translated(src.text);
    var p := Propose(src, original, add, target, w);
    o := Complete(src, p, w, old(src.trace));
  }

  method Complete(src: SourceFile, p: Prepared, w: World, ghost before: seq<Effect>) returns (o: Outcome)
    requires src.trace == before + p.trace
    modifies src`text, src`trace
    ensures var run := Finish(old(src.text), p, w);
      o == run.outcome && src.text == run.text && src.trace == before + run.trace
  {
    if p.Stop? { return p.outcome; }
    o := Carry(src, Translated(src.text), p.edited, w);
    ghost var rest := Commit(Translated(old(src.text)), p.edited, w).trace;
    assert (before + p.trace) + rest == before + (p.trace + rest);
  }

  /** Edit, validate, perhaps try the suggested name instead, and ask. */
  method Propose(src: SourceFile, original: string, add: bool, pkg: string, w: World) returns (p: Prepared)
    modifies src`trace
    ensures p == Prepare(original, add, pkg, w) && src.trace == old(src.trace) + p.trace
  {
    var edit := EditPackages(original, pkg, add);
    if edit.Err? { return Stop(Said(CannotEdit(edit.error)), []); }
    if edit.value == original { return Stop(Said(NothingToDo), []); }
    if w.checking.NoteRaises? || w.first.VerdictRaises? { return Stop(Escaped, []); }
    if w.first.Valid? {
      p := Confirm(src, edit.value, w);
    } else if add && w.canSuggest {
      p := TrySuggestion(src, original, pkg, w);
    } else {
      p := Stop(Said(NotValid), []);
    }
  }

  method TrySuggestion(src: SourceFile, original: string, pkg: string, w: World) returns (p: Prepared)
    modifies src`trace
    ensures p == Recover(original, pkg, SuggestedEdit(original, w), w) && src.trace == old(src.trace) + p.trace
  {
    if w.recovering.NoteRaises? || w.suggestion.SuggestRaises? { return Stop(Escaped, []); }
    var name := w.suggestion.name;
    if name == "" || name == pkg { return Stop(Said(NotValid), []); }
    var edit := EditPackages(original, name, true);
    if edit.Err? { return Stop(Escaped, []); }
    if edit.value == original { return Stop(Said(NotValid), []); }
    if w.second.VerdictRaises? { return Stop(Escaped, []); }
    if w.second.Invalid? { return Stop(Said(NotValid), []); }
    p := Confirm(src, edit.value, w);
  }

  method Confirm(src: SourceFile, edited: string, w: World) returns (p: Prepared)
    modifies src`trace
    ensures p == Ask(edited, [Validated(edited)], w) && src.trace == old(src.trace) + p.trace
  {
    src.Note(Validated(edited));
    if w.answer.AskRaises? { return Stop(Escaped, [Validated(edited)]); }
    if w.answer.No? { return Stop(Said(Cancelled), [Validated(edited)]); }
    src.Note(Confirmed(edited));
    p := Ready(edited, [Validated(edited), Confirmed(edited)]);
  }

  /** Write the file and switch; on failure put the file back, and the system if it moved. */
  method Carry(src: SourceFile, original: string, edited: string, w: World) returns (o: Outcome)
    modifies src`text, src`trace
    ensures var run := Commit(original, edited, w);
      o == run.outcome && src.text == run.text && src.trace == old(src.trace) + run.trace
  {
    src.Write(edited);
    if w.applying.NoteRaises? || w.switch.Escapes? { return Escaped; }
    if w.switch.Fails? {
      src.Note(SwitchFailed);
      src.Write(original);
      if !(w.canRollback && w.after != w.before) { return Said(Reverted); }
      if w.rollingBack.NoteRaises? { return Escaped; }
      src.Note(RollbackTried);
      match w.rollback {
        case Returns => return Said(RolledBack);
        case Fails => return Said(RollbackFailed);
        case Escapes => return Escaped;
      }
    }
    src.Note(Switched);
    o := Said(Done);
  }

  // ---------------------------------------------------------------- what the file ends as

  /** The file was edited at all. */
  predicate Edited(run: Run) { exists i :: 0 <= i < |run.trace| && run.trace[i].Wrote? }

  /** Everything written was either validated and after that confirmed, or is the original
      being put back after a failed switch. */
  ghost predicate WritesAreLicensed(trace: seq<Effect>, original: string) {
    forall i :: 0 <= i < |trace| && trace[i].Wrote? ==>
      || (exists v, c :: 0 <= v < c < i && trace[v] == Validated(trace[i].text) && trace[c] == Confirmed(trace[i].text))
      || (trace[i].text == original && SwitchFailed in trace[..i])
  }

  ghost predicate Orderly(p: Prepared, original: string) {
    && (p.Ready? ==> p.trace == [Validated(p.edited), Confirmed(p.edited)] && p.edited != original)
    && (p.Stop? ==> p.trace == [] || exists t :: p.trace == [Validated(t)])
  }

  lemma PreparedFromTrace(original: string, add: bool, pkg: string, edit: Result<string>,
                          other: Result<string>, w: World)
    ensures Orderly(PrepareFrom(original, add, pkg, edit, other, w), original)
  {
  }

  lemma PreparedTrace(original: string, add: bool, pkg: string, w: World)
    ensures Orderly(Prepare(original, add, pkg, w), original)
  {
    PreparedFromTrace(original, add, pkg, Edit(original, pkg, add), SuggestedEdit(original, w), w);
  }

  /** After the confirm: the agreed text, and then perhaps a failure and the original. */
  lemma LicensedFrom(edited: string, original: string, rest: seq<Effect>)
    requires rest != [] && rest[0] == Wrote(edited)
    requires forall i :: 0 < i < |rest| && rest[i].Wrote? ==>
      i == 2 && rest[1] == SwitchFailed && rest[2].text == original
    ensures WritesAreLicensed([Validated(edited), Confirmed(edited)] + rest, original)
  {
    var trace := [Validated(edited), Confirmed(edited)] + rest;
    assert trace[0] == Validated(edited) && trace[1] == Confirmed(edited);
    if 2 < |rest| && rest[2].Wrote? { assert trace[3] in trace[..4]; }
  }

  lemma CommitTrace(original: string, edited: string, w: World)
    ensures var run := Commit(original, edited, w);
      WritesAreLicensed([Validated(edited), Confirmed(edited)] + run.trace, original)
  {
    LicensedFrom(edited, original, Commit(original, edited, w).trace);
  }

  /** Nothing reaches the file that was not validated and then confirmed, except the
      original going back. */
  lemma OnlyConsentedTextIsWritten(raw: string, add: bool, pkg: string, w: World)
    ensures WritesAreLicensed(Ran(raw, add, pkg, w).trace, Translated(raw))
  {
    var p := Prepare(Translated(raw), add, pkg, w);
    PreparedTrace(Translated(raw), add, pkg, w);
    FinishIsLicensed(raw, p, w);
  }

  lemma FinishIsLicensed(raw: string, p: Prepared, w: World)
    requires Orderly(p, Translated(raw))
    ensures WritesAreLicensed(Finish(raw, p, w).trace, Translated(raw))
  {
    if p.Ready? { CommitTrace(Translated(raw), p.edited, w); }
  }

  /** The callbacks behave as the transaction expects: once the file is written, the note
      is delivered and the switch returns or raises its own error. */
  predicate WellBehaved(w: World) { w.applying.Shown? && !w.switch.Escapes? }

  ghost predicate AllOrNothing(raw: string, w: World, run: Run) {
    && (!Edited(run) ==> run.text == raw && Switched !in run.trace)
    && (Edited(run) && Switched in run.trace ==> Confirmed(run.text) in run.trace && run.outcome == Said(Done))
    && (Edited(run) ==> ((Switched !in run.trace ==> run.text == Translated(raw)) <==> WellBehaved(w)))
  }

  /** All or nothing. Unless the switch returned the file holds its original text again
      (with line ends as they were read), and if it did the file holds exactly the
      confirmed text. For a run that gets as far as writing, this is so precisely when the
      callbacks are well behaved. */
  lemma FileIsAllOrNothing(raw: string, add: bool, pkg: string, w: World)
    ensures AllOrNothing(raw, w, Ran(raw, add, pkg, w))
  {
    var p := Prepare(Translated(raw), add, pkg, w);
    PreparedTrace(Translated(raw), add, pkg, w);
    FinishIsAllOrNothing(raw, p, w);
  }

  lemma FinishIsAllOrNothing(raw: string, p: Prepared, w: World)
    requires Orderly(p, Translated(raw))
    ensures AllOrNothing(raw, w, Finish(raw, p, w))
  {
    if p.Ready? {
      var commit := Commit(Translated(raw), p.edited, w);
      var trace := p.trace + commit.trace;
      assert trace[1] == Confirmed(p.edited) && trace[2] == Wrote(p.edited);
      assert commit.trace[0] == Wrote(p.edited);
      assert w.applying.Shown? && w.switch.Returns? ==> commit.trace[1] == Switched;
      assert Switched in commit.trace <==> w.applying.Shown? && w.switch.Returns?;
      assert Switched in trace <==> Switched in commit.trace;
    }
  }

  // ---------------------------------------------------------------- what each answer means

  /** The edit changes the text and was found valid. */
  predicate FoundValid(original: string, edit: Result<string>, w: World) {
    edit.Ok? && edit.value != original && w.checking.Shown? && w.first.Valid?
  }

  /** The edit changes the text and was found not to be valid. */
  predicate FoundInvalid(original: string, edit: Result<string>, w: World) {
    edit.Ok? && edit.value != original && w.checking.Shown? && w.first.Invalid?
  }

  /** Another name is proposed in its stead. */
  predicate Proposed(add: bool, pkg: string, w: World) {
    && add && w.canSuggest && w.recovering.Shown? && w.suggestion.Suggested?
    && w.suggestion.name != "" && w.suggestion.name != pkg
  }

  /** No name is proposed in its stead: none is asked for, or none comes but the same. */
  predicate NoneProposed(add: bool, pkg: string, w: World) {
    || !add || !w.canSuggest
    || (w.recovering.Shown? && w.suggestion.Suggested? && (w.suggestion.name == "" || w.suggestion.name == pkg))
  }

  /** The edit with that name changes the text and was found valid. */
  predicate OtherValid(original: string, add: bool, pkg: string, edit: Result<string>, other: Result<string>,
                       w: World) {
    && FoundInvalid(original, edit, w) && Proposed(add, pkg, w)
    && other.Ok? && other.value != original && w.second.Valid?
  }

  /** It was given up as not valid. */
  predicate GivenUp(original: string, add: bool, pkg: string, edit: Result<string>, other: Result<string>, w: World) {
    FoundInvalid(original, edit, w) &&
    (|| NoneProposed(add, pkg, w)
     || (Proposed(add, pkg, w) && other.Ok? && (other.value == original || w.second.Invalid?)))
  }

  /** What a run comes to before the write, by its edit and the one with the name proposed. */
  ghost predicate Means(p: Prepared, original: string, add: bool, pkg: string, edit: Result<string>,
                        other: Result<string>, w: World) {
    var valid, otherValid := FoundValid(original, edit, w), OtherValid(original, add, pkg, edit, other, w);
    && (p.Ready? <==> w.answer.Yes? && (valid || otherValid))
    && (p.Ready? ==> p.edited == if valid then edit.value else other.value)
    && (p == Stop(Said(Cancelled), p.trace) <==> w.answer.No? && (valid || otherValid))
    && (p == Stop(Said(NotValid), p.trace) <==> GivenUp(original, add, pkg, edit, other, w))
    && (p == Stop(Said(NothingToDo), p.trace) <==> edit == Ok(original))
    && (forall error :: p == Stop(Said(CannotEdit(error)), p.trace) <==> edit == Err(error))
    && (p.Stop? ==> p.outcome != Said(NoName) && p.outcome != Said(Done))
  }

  lemma PreparedMeans(original: string, add: bool, pkg: string, edit: Result<string>, other: Result<string>, w: World)
    ensures Means(PrepareFrom(original, add, pkg, edit, other, w), original, add, pkg, edit, other, w)
  {
  }

  /** A yes to the question leads to the write. */
  lemma FinishMeans(raw: string, p: Prepared, w: World)
    requires Orderly(p, Translated(raw))
    ensures var run := Finish(raw, p, w);
      && (Edited(run) <==> p.Ready?)
      && (p.Ready? ==> |run.trace| > 2 && run.trace[2] == Wrote(p.edited))
      && (p.Stop? ==> run.outcome == p.outcome)
  {
    if p.Ready? { assert Finish(raw, p, w).trace[2] == Wrote(p.edited); }
  }

  /** What became of the switch. */
  lemma FinishReplies(raw: string, p: Prepared, w: World)
    requires p.Ready?
    ensures var o := Finish(raw, p, w).outcome; var failed := w.applying.Shown? && w.switch.Fails?;
      var tried := failed && w.canRollback && w.after != w.before && w.rollingBack.Shown?;
      && (o == Said(Done) <==> w.applying.Shown? && w.switch.Returns?)
      && (o == Said(Reverted) <==> failed && !(w.canRollback && w.after != w.before))
      && (o == Said(RolledBack) <==> tried && w.rollback.Returns?)
      && (o == Said(RollbackFailed) <==> tried && w.rollback.Fails?)
      && (o.Said? ==> o.reply in {Done, Reverted, RolledBack, RollbackFailed})
  {
  }

  /** The file is written if and only if the answer was yes and the text asked about was found
      valid: the edit, or, where that was found not to be, the edit with the name proposed; and it
      is that text which is written. The replies before the write, by what the callbacks did. */
  ghost predicate Accounts(run: Run, original: string, add: bool, pkg: string, edit: Result<string>,
                           other: Result<string>, w: World) {
    var valid, otherValid := FoundValid(original, edit, w), OtherValid(original, add, pkg, edit, other, w);
    && (Edited(run) <==> w.answer.Yes? && (valid || otherValid))
    && (Edited(run) ==> |run.trace| > 2 && run.trace[2] == Wrote(if valid then edit.value else other.value))
    && (run.outcome == Said(Cancelled) <==> w.answer.No? && (valid || otherValid))
    && (run.outcome == Said(NotValid) <==> GivenUp(original, add, pkg, edit, other, w))
    && (run.outcome == Said(NothingToDo) <==> edit == Ok(original))
    && (forall error :: run.outcome == Said(CannotEdit(error)) <==> edit == Err(error))
    && (run.outcome == Said(Done) <==> Edited(run) && w.applying.Shown? && w.switch.Returns?)
    && run.outcome != Said(NoName)
  }

  lemma FinishAccounts(raw: string, p: Prepared, add: bool, pkg: string, edit: Result<string>,
                       other: Result<string>, w: World)
    requires Orderly(p, Translated(raw)) && Means(p, Translated(raw), add, pkg, edit, other, w)
    ensures Accounts(Finish(raw, p, w), Translated(raw), add, pkg, edit, other, w)
  {
    FinishMeans(raw, p, w);
    if p.Ready? { FinishReplies(raw, p, w); }
  }

  lemma RunIsAccounted(raw: string, add: bool, pkg: string, w: World)
    ensures var original := Translated(raw); var run := Ran(raw, add, pkg, w);
      if pkg == "" then run == Run(Said(NoName), raw, [])
      else Accounts(run, original, add, pkg, Edit(original, pkg, add), SuggestedEdit(original, w), w)
    ensures w.suggestion.Suggested? ==>
      SuggestedEdit(Translated(raw), w) == Edit(Translated(raw), w.suggestion.name, true)
  {
    if pkg != "" {
      var original := Translated(raw);
      PreparedMeans(original, add, pkg, Edit(original, pkg, add), SuggestedEdit(original, w), w);
      PreparedTrace(original, add, pkg, w);
      FinishAccounts(raw, Prepare(original, add, pkg, w), add, pkg, Edit(original, pkg, add),
                     SuggestedEdit(original, w), w);
    }
  }

  /** And after the write, by what became of the switch. */
  lemma WrittenReplies(raw: string, add: bool, pkg: string, w: World)
    requires Edited(Ran(raw, add, pkg, w))
    ensures var o := Ran(raw, add, pkg, w).outcome; var failed := w.applying.Shown? && w.switch.Fails?;
      var tried := failed && w.canRollback && w.after != w.before && w.rollingBack.Shown?;
      && (o == Said(Reverted) <==> failed && !(w.canRollback && w.after != w.before))
      && (o == Said(RolledBack) <==> tried && w.rollback.Returns?)
      && (o == Said(RollbackFailed) <==> tried && w.rollback.Fails?)
  {
    var p := Prepare(Translated(raw), add, pkg, w);
    PreparedTrace(Translated(raw), add, pkg, w);
    FinishMeans(raw, p, w);
    FinishReplies(raw, p, w);
  }

  /** The system is rolled back only after a failed switch that moved the generation. */
  lemma RollbackOnlyIfMoved(raw: string, add: bool, pkg: string, w: World)
    ensures var run := Ran(raw, add, pkg, w);
      && (RollbackTried in run.trace
          <==> SwitchFailed in run.trace && w.canRollback && w.after != w.before && w.rollingBack.Shown?)
  {
    PreparedTrace(Translated(raw), add, pkg, w);
    FinishRollsBack(raw, Prepare(Translated(raw), add, pkg, w), w);
  }

  lemma FinishRollsBack(raw: string, p: Prepared, w: World)
    requires Orderly(p, Translated(raw))
    ensures var run := Finish(raw, p, w);
      && (RollbackTried in run.trace
          <==> SwitchFailed in run.trace && w.canRollback && w.after != w.before && w.rollingBack.Shown?)
  {
    if p.Ready? {
      var trace := Commit(Translated(raw), p.edited, w).trace;
      assert 1 < |trace| ==> trace[1] in trace;
      assert 3 < |trace| ==> trace[3] in trace;
    }
  }

  // ---------------------------------------------------------------- byte for byte

  lemma {:induction false} TranslatedHasNoReturn(s: string)
    ensures '\r' !in Translated(s) && |Translated(s)| <= |s|
  {
    if s != [] { TranslatedHasNoReturn(s[1..]); }
  }

  lemma {:induction false} TranslatedIsSame(s: string)
    ensures Translated(s) == s <==> '\r' !in s
  {
    TranslatedHasNoReturn(s);
    if s != [] {
      TranslatedIsSame(s[1..]);
      assert s == [s[0]] + s[1..];
      if s[0] != '\r' {
        assert Translated(s)[1..] == Translated(s[1..]);
      }
    }
  }

  /** A text is translated part by part, wherever it is not cut inside a line end. */
  lemma {:induction false} TranslatedConcat(a: string, b: string)
    requires a == [] || b == [] || a[|a| - 1] != '\r' || b[0] != '\n'
    ensures Translated(a + b) == Translated(a) + Translated(b)
  {
    if a == [] {
      assert a + b == b;
    } else {
      assert (a + b)[1..] == a[1..] + b;
      TranslatedConcat(a[1..], b);
    }
  }

  /** Each of the two line ends with a carriage return becomes a line feed, and every other
      character stays. */
  lemma LineEndsAreTranslated(c: char)
    ensures Translated("\r\n") == "\n" && Translated([c]) == if c == '\r' then "\n" else [c]
  {
    assert "\r\n"[1..] == "\n" && "\n"[1..] == [] && [c][1..] == [];
  }

  /** Putting the original back restores the file byte for byte exactly when it held no
      carriage return to begin with: the text was read with its line ends translated. */
  lemma RevertIsExact(raw: string, add: bool, pkg: string, w: World)
    ensures var run := Ran(raw, add, pkg, w);
      SwitchFailed in run.trace ==> (run.text == raw <==> '\r' !in raw)
  {
    PreparedTrace(Translated(raw), add, pkg, w);
    FinishReverts(raw, Prepare(Translated(raw), add, pkg, w), w);
    TranslatedIsSame(raw);
  }

  lemma FinishReverts(raw: string, p: Prepared, w: World)
    requires Orderly(p, Translated(raw))
    ensures var run := Finish(raw, p, w); SwitchFailed in run.trace ==> run.text == Translated(raw)
  {
  }

  // ---------------------------------------------------------------- two runs

  /** All goes well until the switch fails. */
  const UNTIL_SWITCH := World(Shown, Valid, false, Shown, Suggested(""), Valid, Yes, Shown, None, Fails, None,
                              false, Shown, Returns)

  /** An edit that is valid and agreed to is carried out. */
  predicate Agreed(w: World) { w.checking.Shown? && w.first.Valid? && w.answer.Yes? }

  lemma AgreedFrom(original: string, pkg: string, edit: Result<string>, other: Result<string>, w: World)
    requires Agreed(w) && edit.Ok? && edit.value != original
    ensures PrepareFrom(original, true, pkg, edit, other, w)
         == Ready(edit.value, [Validated(edit.value), Confirmed(edit.value)])
  {
    assert [Validated(edit.value)] + [Confirmed(edit.value)] == [Validated(edit.value), Confirmed(edit.value)];
  }

  lemma AgreedIsReady(original: string, pkg: string, w: World)
    requires Agreed(w) && Edit(original, pkg, true).Ok? && Edit(original, pkg, true).value != original
    ensures var p := Prepare(original, true, pkg, w); p.Ready? && p.edited != original
  {
    AgreedFrom(original, pkg, Edit(original, pkg, true), SuggestedEdit(original, w), w);
  }

  lemma BareIsReady(pkg: string, w: World)
    requires Agreed(w) && pkg != ""
    ensures var p := Prepare(OPENING + CLOSING, true, pkg, w); p.Ready? && p.edited != OPENING + CLOSING
  {
    BareGrows(pkg);
    AgreedIsReady(OPENING + CLOSING, pkg, w);
  }

  lemma NoteRaised(raw: string, p: Prepared, w: World)
    requires p.Ready? && w.applying.NoteRaises?
    ensures var run := Finish(raw, p, w); Edited(run) && run.outcome == Escaped && run.text == p.edited
  {
    var run := Finish(raw, p, w);
    assert run.trace[|p.trace|] == Wrote(p.edited);
  }

  lemma SwitchFails(raw: string, p: Prepared, w: World)
    requires p.Ready? && w.applying.Shown? && w.switch.Fails? && !w.canRollback
    ensures var run := Finish(raw, p, w);
      SwitchFailed in run.trace && run.outcome == Said(Reverted) && run.text == Translated(raw)
  {
    var run := Finish(raw, p, w);
    assert run.trace[|p.trace| + 1] == SwitchFailed;
  }

  lemma ReadyIsFinished(raw: string, original: string, pkg: string, w: World)
    requires Translated(raw) == original && pkg != ""
    ensures Ran(raw, true, pkg, w) == Finish(raw, Prepare(original, true, pkg, w), w)
  {
  }

  lemma BareIsReadAsItIs()
    ensures Translated(OPENING + CLOSING) == OPENING + CLOSING
  {
    TranslatedIsSame(OPENING + CLOSING);
  }

  /** A progress note that raises, as to a client that is gone, leaves the edit in the file. */
  lemma EditStays(pkg: string)
    requires pkg != ""
    ensures var run := Ran(OPENING + CLOSING, true, pkg, UNTIL_SWITCH.(applying := NoteRaises));
      Edited(run) && run.outcome == Escaped && run.text != OPENING + CLOSING
  {
    var text, w := OPENING + CLOSING, UNTIL_SWITCH.(applying := NoteRaises);
    BareIsReadAsItIs();
    ReadyIsFinished(text, text, pkg, w);
    BareIsReady(pkg, w);
    var p := Prepare(text, true, pkg, w);
    NoteRaised(text, p, w);
  }

  const RETURNED := LIST_NAME + " = [" + "\r\n" + CLOSING

  lemma ReturnedIsRead()
    ensures Translated(RETURNED) == OPENING + CLOSING && RETURNED != OPENING + CLOSING
  {
    var start := LIST_NAME + " = [";
    assert RETURNED == start + ("\r\n" + CLOSING);
    TranslatedConcat(start, "\r\n" + CLOSING);
    TranslatedIsSame(start);
    assert ("\r\n" + CLOSING)[1..] == "\n" + CLOSING;
    TranslatedIsSame("\n" + CLOSING);
    assert Translated(RETURNED) == start + ("\n" + CLOSING) == OPENING + CLOSING;
    assert |RETURNED| == |OPENING + CLOSING| + 1;
  }

  /** A file whose first line ends in a carriage return and a line feed has lost the return
      after a failed switch. */
  lemma ReturnIsLost(pkg: string)
    requires pkg != ""
    ensures var run := Ran(RETURNED, true, pkg, UNTIL_SWITCH);
      run.outcome == Said(Reverted) && run.text == OPENING + CLOSING && run.text != RETURNED
  {
    ReturnedIsRead();
    BareIsReady(pkg, UNTIL_SWITCH);
    ReadyIsFinished(RETURNED, OPENING + CLOSING, pkg, UNTIL_SWITCH);
    SwitchFails(RETURNED, Prepare(OPENING + CLOSING, true, pkg, UNTIL_SWITCH), UNTIL_SWITCH);
  }

  lemma {:induction false} LinesComeFromText(t: string)
    ensures forall l, c :: l in SplitLines(t) && c in l ==> c in t
    decreases |t|
  {
    if t != [] {
      LinesComeFromText(t[LineEnd(t)..]);
      assert t == t[..LineEnd(t)] + t[LineEnd(t)..];
    }
  }

  /** The transaction only ever edits text without lone carriage returns, so the package
      set of the file moves by exactly the one name. */
  lemma ReadTextHasNoLoneReturn(raw: string)
    ensures NoLoneReturn(Translated(raw))
  {
    TranslatedHasNoReturn(raw);
    LinesComeFromText(Translated(raw));
    forall l | l in SplitLines(Translated(raw)) ensures !EndsReturn(l) {
      if l != [] { assert l[|l| - 1] in l; }
    }
  }
}

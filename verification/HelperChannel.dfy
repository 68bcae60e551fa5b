/**
 The boundary to the privileged helper: the frames a rebuild emits, what the daemon makes
 of whatever part of them arrives, and when it may report success.
 */
module HelperChannel {
  import opened Options
  import opened Strings

  datatype Result<+T> = Ok(value: T) | Err(error: HelperError)
  /** All but `Overrun` are raised as the error the daemon knows. */
  datatype HelperError =
    | Malformed | Refused | BadStream | BadExit | TimedOut | Unreachable | NoExitStatus | Overrun | Failed(code: int)

  datatype Json = JNull | JBool(b: bool) | JInt(n: int) | JString(s: string) | JOther

  /** One received line: blank, not decodable, not an object, or an object of which only
      three fields matter. */
  datatype Line =
    | Blank | Garbled | NotObject
    | Object(error: Option<Json>, stream: Option<Json>, exit: Option<Json>)

  /** How the connection ends after the last line; a line may be longer than the reader takes. */
  datatype Ending = Eof | Timeout | Broken | TooLong

  function StreamFrame(s: string): Line { Object(None, Some(JString(s)), None) }
  function ExitFrame(code: int): Line { Object(None, None, Some(JInt(code))) }

  // ---------------------------------------------------------------- the reader

  datatype Progress = Reading(chunks: seq<string>, exit: Option<int>) | Stopped(error: HelperError)

  function TakeLine(p: Progress, l: Line): Progress {
    if p.Stopped? then p
    else match l
         case Blank => p
         case Garbled => Stopped(Malformed)
         case NotObject => Stopped(Malformed)
         case Object(error, stream, exit) =>
           if error.Some? then Stopped(Refused)
           else if stream.Some? && !stream.value.JNull? && !stream.value.JString? then Stopped(BadStream)
           else if exit.Some? && !exit.value.JInt? then Stopped(BadExit)
           else Reading(if stream.Some? && stream.value.JString? then p.chunks + [stream.value.s] else p.chunks,
                        if exit.Some? then Some(exit.value.n) else p.exit)
  }

  function TakeLines(lines: seq<Line>): Progress {
    if lines == [] then Reading([], None) else TakeLine(TakeLines(lines[..|lines| - 1]), lines[|lines| - 1])
  }

  function Concat(chunks: seq<string>): string {
    if chunks == [] then "" else chunks[0] + Concat(chunks[1..])
  }

  /** The output and the exit code, or why there is none. */
  function Read(lines: seq<Line>, ending: Ending): Result<(string, int)> {
    match TakeLines(lines)
    case Stopped(e) => Err(e)
    case Reading(chunks, exit) =>
      match ending
      case Timeout => Err(TimedOut)
      case Broken => Err(Unreachable)
      case TooLong => Err(Overrun)
      case Eof => if exit.None? then Err(NoExitStatus) else Ok((Strip(Concat(chunks)), exit.value))
  }

  method RunHelper(lines: seq<Line>, ending: Ending) returns (r: Result<(string, int)>)
    ensures r == Read(lines, ending)
  {
    var chunks: seq<string>, exitCode: Option<int> := [], None;
    for i := 0 to |lines|
      invariant TakeLines(lines[..i]) == Reading(chunks, exitCode)
    {
      assert lines[..i + 1][..i] == lines[..i];
      var l := lines[i];
      if l.Blank? { continue; }
      if !l.Object? { StoppedStays(lines, i + 1); return Err(Malformed); }
      if l.error.Some? { StoppedStays(lines, i + 1); return Err(Refused); }
      if l.stream.Some? && !l.stream.value.JNull? {
        if !l.stream.value.JString? { StoppedStays(lines, i + 1); return Err(BadStream); }
        chunks := chunks + [l.stream.value.s];
      }
      if l.exit.Some? {
        if !l.exit.value.JInt? { StoppedStays(lines, i + 1); return Err(BadExit); }
        exitCode := Some(l.exit.value.n);
      }
    }
    assert lines[..|lines|] == lines;
    match ending {
      case Timeout => return Err(TimedOut);
      case Broken => return Err(Unreachable);
      case TooLong => return Err(Overrun);
      case Eof =>
    }
    if exitCode.None? { return Err(NoExitStatus); }
    r := Ok((Strip(Concat(chunks)), exitCode.value));
  }

  lemma {:induction false} StoppedStays(lines: seq<Line>, n: nat)
    requires n <= |lines| && TakeLines(lines[..n]).Stopped?
    ensures TakeLines(lines) == TakeLines(lines[..n])
    decreases |lines| - n
  {
    if n == |lines| {
      assert lines[..n] == lines;
    } else {
      assert lines[..n + 1][..n] == lines[..n];
      StoppedStays(lines, n + 1);
    }
  }

  // ---------------------------------------------------------------- what a result means

  predicate GoodLine(l: Line) {
    l.Blank? || (l.Object? && l.error.None?
                 && (l.stream.Some? ==> l.stream.value.JNull? || l.stream.value.JString?)
                 && (l.exit.Some? ==> l.exit.value.JInt?))
  }

  predicate ExitLine(l: Line) { l.Object? && l.exit.Some? }

  /** The text a line streams. */
  function Streamed(l: Line): string {
    if l.Object? && l.stream.Some? && l.stream.value.JString? then l.stream.value.s else ""
  }

  function AllStreamed(lines: seq<Line>): string {
    if lines == [] then "" else AllStreamed(lines[..|lines| - 1]) + Streamed(lines[|lines| - 1])
  }

  lemma {:induction false} ConcatSnoc(chunks: seq<string>, s: string)
    ensures Concat(chunks + [s]) == Concat(chunks) + s
  {
    if chunks == [] {
      assert chunks + [s] == [s];
      assert Concat([s]) == s + Concat([]);
    } else {
      ConcatSnoc(chunks[1..], s);
      assert (chunks + [s])[1..] == chunks[1..] + [s];
      assert chunks[0] + (Concat(chunks[1..]) + s) == (chunks[0] + Concat(chunks[1..])) + s;
    }
  }

  lemma {:induction false} ReadingMeaning(lines: seq<Line>)
    ensures TakeLines(lines).Reading? <==> forall l :: l in lines ==> GoodLine(l)
  {
    if lines != [] {
      var init, last := lines[..|lines| - 1], lines[|lines| - 1];
      ReadingMeaning(init);
      assert lines == init + [last];
      assert TakeLines(lines).Reading? <==> TakeLines(init).Reading? && GoodLine(last);
      assert forall l :: l in lines <==> l in init || l == last;
    }
  }

  lemma {:induction false} ChunksMeaning(lines: seq<Line>)
    requires TakeLines(lines).Reading?
    ensures Concat(TakeLines(lines).chunks) == AllStreamed(lines)
  {
    if lines != [] {
      var init, last := lines[..|lines| - 1], lines[|lines| - 1];
      ChunksMeaning(init);
      var before := TakeLines(init).chunks;
      if TakeLines(lines).chunks == before {
        assert AllStreamed(init) + "" == AllStreamed(init);
      } else {
        ConcatSnoc(before, last.stream.value.s);
      }
    }
  }

  lemma {:induction false} ExitMeaning(lines: seq<Line>)
    requires TakeLines(lines).Reading?
    ensures TakeLines(lines).exit.Some? <==> exists l :: l in lines && ExitLine(l)
  {
    if lines != [] {
      var init, last := lines[..|lines| - 1], lines[|lines| - 1];
      ExitMeaning(init);
      assert lines == init + [last];
      if ExitLine(last) {
        assert last in lines;
      } else if l :| l in init && ExitLine(l) {
        assert l in lines;
      } else {
        forall l | l in lines ensures !ExitLine(l) { assert l in init || l == last; }
      }
    }
  }

  /** A result comes back exactly when every line was good, the peer closed the connection
      in order, and an exit status had arrived; the output is all that was streamed. */
  lemma ReadMeaning(lines: seq<Line>, ending: Ending)
    ensures Read(lines, ending).Ok?
       <==> ending == Eof && (forall l :: l in lines ==> GoodLine(l)) && exists l :: l in lines && ExitLine(l)
    ensures Read(lines, ending).Ok? ==> Read(lines, ending).value.0 == Strip(AllStreamed(lines))
    ensures Read(lines, ending).Ok? ==> exists k :: LastExitAt(lines, k, Read(lines, ending).value.1)
  {
    ReadingMeaning(lines);
    if TakeLines(lines).Reading? {
      ChunksMeaning(lines);
      ExitMeaning(lines);
      if TakeLines(lines).exit.Some? { var k := LastExit(lines); }
    }
  }

  /** The first line that is not good is at `k`. */
  ghost predicate FirstBad(lines: seq<Line>, k: nat) {
    k < |lines| && !GoodLine(lines[k]) && forall l :: l in lines[..k] ==> GoodLine(l)
  }

  /** Which error a bad line is: it holds no object; or one that refuses the request; or one whose stream
      is no text; or one whose exit status is no number. The first of these counts. */
  lemma ReadFails(lines: seq<Line>, ending: Ending, k: nat)
    requires FirstBad(lines, k)
    ensures var r, l := Read(lines, ending), lines[k];
      && r.Err? && r.error in {Malformed, Refused, BadStream, BadExit}
      && (r.error == Malformed <==> !l.Object?)
      && (r.error == Refused <==> l.Object? && l.error.Some?)
      && (r.error == BadStream <==> l.Object? && l.error.None? && l.stream.Some? && !l.stream.value.JNull?
                                    && !l.stream.value.JString?)
  {
    ReadingMeaning(lines[..k]);
    assert lines[..k + 1][..k] == lines[..k];
    StoppedStays(lines, k + 1);
  }

  /** Where every line is good, how the connection ended decides. */
  lemma ReadEnds(lines: seq<Line>, ending: Ending)
    requires forall l :: l in lines ==> GoodLine(l)
    ensures ending == Timeout ==> Read(lines, ending) == Err(TimedOut)
    ensures ending == Broken ==> Read(lines, ending) == Err(Unreachable)
    ensures ending == TooLong ==> Read(lines, ending) == Err(Overrun)
    ensures ending == Eof && (forall l :: l in lines ==> !ExitLine(l)) ==> Read(lines, ending) == Err(NoExitStatus)
  {
    ReadingMeaning(lines);
    ExitMeaning(lines);
  }

  /** The last exit status that came is `code`, in line `k`. */
  ghost predicate LastExitAt(lines: seq<Line>, k: nat, code: int) {
    && k < |lines| && ExitLine(lines[k]) && lines[k].exit == Some(JInt(code))
    && forall j :: k < j < |lines| ==> !ExitLine(lines[j])
  }

  lemma {:induction false} LastExit(lines: seq<Line>) returns (k: nat)
    requires TakeLines(lines).Reading? && TakeLines(lines).exit.Some?
    ensures LastExitAt(lines, k, TakeLines(lines).exit.value)
  {
    var n := |lines| - 1;
    if ExitLine(lines[n]) {
      k := n;
    } else {
      k := LastExit(lines[..n]);
      forall j | k < j < |lines| ensures !ExitLine(lines[j]) {
        if j < n { assert lines[..n][j] == lines[j]; }
      }
    }
  }

  // ---------------------------------------------------------------- the writer

  /** What the helper observes of one rebuild. `status` is the main process status when it
      reads as a number. */
  datatype Rebuild = Rebuild(waited: bool, startCode: int, startOutput: string, journal: seq<string>,
                             active: bool, status: Option<int>)

  /** Zero exactly for an active unit: a failed or killed one never reports success. */
  function ExitCodeFrom(active: bool, status: Option<int>): int {
    if active then 0
    else
      var code := if status.Some? then status.value else 1;
      if code == 0 then 1 else code
  }

  function CodeOf(r: Rebuild): int {
    if r.startCode != 0 then r.startCode else ExitCodeFrom(r.active, r.status)
  }

  function StreamFrames(texts: seq<string>): (ls: seq<Line>)
    ensures |ls| == |texts| && forall i :: 0 <= i < |ls| ==> ls[i] == StreamFrame(texts[i])
  {
    if texts == [] then [] else StreamFrames(texts[..|texts| - 1]) + [StreamFrame(texts[|texts| - 1])]
  }

  /** The texts streamed before the exit frame. `note` is the helper's own last remark. */
  function Texts(r: Rebuild, note: string): seq<string> {
    (if r.waited then ["another rebuild is in progress; waiting…\n"] else [])
    + if r.startCode != 0 then [r.startOutput]
      else r.journal + if CodeOf(r) != 0 then [note] else []
  }

  function Frames(r: Rebuild, note: string): seq<Line> {
    StreamFrames(Texts(r, note)) + [ExitFrame(CodeOf(r))]
  }

  /** What arrives of the frames: the first `whole` of them, perhaps a piece of the next
      one, which is no JSON, and then the connection ends. */
  function Received(frames: seq<Line>, whole: nat, piece: bool): seq<Line>
    requires whole <= |frames|
  {
    frames[..whole] + if piece then [Garbled] else []
  }

  /** No false success: wherever the frames are cut off, a result comes back only if all of
      them arrived, and then with the helper's code and the whole output. */
  lemma NoFalseResult(r: Rebuild, note: string, whole: nat, piece: bool, ending: Ending)
    requires whole <= |Frames(r, note)|
    ensures var frames := Frames(r, note); var result := Read(Received(frames, whole, piece), ending);
      if whole == |frames| && !piece && ending == Eof
      then result == Ok((Strip(Concat(Texts(r, note))), CodeOf(r)))
      else result.Err?
  {
    var frames := Frames(r, note);
    if whole == |frames| && !piece {
      assert Received(frames, whole, piece) == frames;
      WholeRead(Texts(r, note), CodeOf(r), ending);
    } else {
      CutShort(Texts(r, note), CodeOf(r), whole, piece, ending);
    }
  }

  lemma CutShort(texts: seq<string>, code: int, whole: nat, piece: bool, ending: Ending)
    requires whole <= |texts| + 1 && (whole == |texts| + 1 ==> piece)
    ensures Read(Received(StreamFrames(texts) + [ExitFrame(code)], whole, piece), ending).Err?
  {
    var lines := Received(StreamFrames(texts) + [ExitFrame(code)], whole, piece);
    ReadMeaning(lines, ending);
    if piece { assert lines[|lines| - 1] == Garbled; }
  }

  lemma {:induction false} StreamsRead(texts: seq<string>)
    ensures TakeLines(StreamFrames(texts)) == Reading(texts, None)
  {
    if texts != [] {
      var n := |texts| - 1;
      var frames := StreamFrames(texts);
      StreamsRead(texts[..n]);
      assert frames[..|frames| - 1] == StreamFrames(texts[..n]) && frames[|frames| - 1] == StreamFrame(texts[n]);
      assert TakeLine(Reading(texts[..n], None), StreamFrame(texts[n])) == Reading(texts[..n] + [texts[n]], None);
      assert texts[..n] + [texts[n]] == texts;
    }
  }

  lemma WholeRead(texts: seq<string>, code: int, ending: Ending)
    ensures var result := Read(StreamFrames(texts) + [ExitFrame(code)], ending);
      if ending == Eof then result == Ok((Strip(Concat(texts)), code)) else result.Err?
  {
    StreamsRead(texts);
    var lines := StreamFrames(texts) + [ExitFrame(code)];
    assert lines[..|lines| - 1] == StreamFrames(texts);
    assert TakeLines(lines) == Reading(texts, Some(code));
  }

  // ---------------------------------------------------------------- the direct switch

  method ApplySwitch(lines: seq<Line>, ending: Ending) returns (r: Result<string>)
    ensures r == Switched(Read(lines, ending))
  {
    var result := RunHelper(lines, ending);
    if result.Err? { return Err(result.error); }
    var (output, code) := result.value;
    if code != 0 { return Err(Failed(code)); }
    r := Ok(if output == "" then "(done)" else output);
  }

  function Switched(result: Result<(string, int)>): Result<string> {
    match result
    case Err(e) => Err(e)
    case Ok((output, code)) =>
      if code != 0 then Err(Failed(code)) else Ok(if output == "" then "(done)" else output)
  }

  /** The switch reports success exactly when the rebuild unit was started, was read as
      active when it had finished, and every frame of its report arrived. */
  lemma SwitchSucceedsOnlyIfActive(r: Rebuild, note: string, whole: nat, piece: bool, ending: Ending)
    requires whole <= |Frames(r, note)|
    ensures Switched(Read(Received(Frames(r, note), whole, piece), ending)).Ok?
       <==> r.startCode == 0 && r.active && whole == |Frames(r, note)| && !piece && ending == Eof
  {
    NoFalseResult(r, note, whole, piece, ending);
  }

  /** What it then says: all that was streamed, or that it is done if that is nothing. A report of anything
      else that arrives whole is a failure with the helper's code, which is that of the start if the unit
      could not be started, else the unit's own status, if that is a number other than zero, else 1. */
  lemma SwitchReports(r: Rebuild, note: string)
    ensures var result := Switched(Read(Frames(r, note), Eof)); var output := Strip(Concat(Texts(r, note)));
      && (r.startCode == 0 && r.active ==> result == Ok(if output == "" then "(done)" else output))
      && (r.startCode != 0 ==> result == Err(Failed(r.startCode)))
      && (r.startCode == 0 && !r.active ==>
            result == Err(Failed(if r.status.Some? && r.status.value != 0 then r.status.value else 1)))
  {
    NoFalseResult(r, note, |Frames(r, note)|, false, Eof);
    assert Received(Frames(r, note), |Frames(r, note)|, false) == Frames(r, note);
  }

  /** What a rebuild streams: that it had to wait, if it had; then why it could not be started, or its journal,
      with a last remark if it failed. */
  lemma TextsMean(r: Rebuild, note: string)
    ensures Concat(Texts(r, note))
         == (if r.waited then "another rebuild is in progress; waiting…\n" else "")
            + if r.startCode != 0 then r.startOutput
              else Concat(r.journal) + if r.active then "" else note
  {
    var rest := if r.startCode != 0 then [r.startOutput] else r.journal + if CodeOf(r) != 0 then [note] else [];
    if r.startCode == 0 && !r.active { ConcatSnoc(r.journal, note); }
    assert r.journal + [] == r.journal && Concat(r.journal) + "" == Concat(r.journal);
    assert [r.startOutput][1..] == [] && Concat([r.startOutput]) == r.startOutput + Concat([]);
    var waiting := "another rebuild is in progress; waiting…\n";
    assert ([waiting] + rest)[1..] == rest && [] + rest == rest;
  }
}

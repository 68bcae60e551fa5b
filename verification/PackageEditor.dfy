/**
 The line editor for the `home.packages = ... [ ... ];` list of a configuration file:
 add a bare package name, or remove one, and leave every other character alone.
 */
module PackageEditor {
  import opened Sequences
  import opened Strings

  datatype Result<+T> = Ok(value: T) | Err(error: EditError)
  datatype EditError = NoList | NoEnd | NotListed(pkg: string)

  // ---------------------------------------------------------------- lines

  /** The length of the first line of a text, with its terminator. */
  function LineEnd(t: string): (n: nat)
    ensures n <= |t| && (t != [] ==> 0 < n)
  {
    if t == [] then 0
    else if t[0] == '\r' && 1 < |t| && t[1] == '\n' then 2
    else if IsBreak(t[0]) then 1
    else 1 + LineEnd(t[1..])
  }

  /** `splitlines(keepends=True)`. */
  function SplitLines(t: string): seq<string>
    decreases |t|
  {
    if t == [] then [] else [t[..LineEnd(t)]] + SplitLines(t[LineEnd(t)..])
  }

  function Join(lines: seq<string>): string {
    if lines == [] then [] else lines[0] + Join(lines[1..])
  }

  // ---------------------------------------------------------------- the two patterns

  datatype Pattern = ListStart | ListEnd

  const LIST_NAME := "home.packages"

  /** `.*\[` : an opening bracket before the next line feed. */
  predicate BracketAhead(s: string) {
    s != [] && s[0] != '\n' && (s[0] == '[' || BracketAhead(s[1..]))
  }

  predicate ListHere(s: string) {
    LIST_NAME <= s &&
    var rest := LStrip(s[|LIST_NAME|..]);
    rest != [] && rest[0] == '=' && BracketAhead(rest[1..])
  }

  /** `home\.packages\s*=.*\[` anywhere in the line. */
  predicate StartsList(s: string) {
    s != [] && (ListHere(s) || StartsList(s[1..]))
  }

  predicate Closing(s: string) { 2 <= |s| && s[0] == ']' && s[1] == ';' }

  /** `^\s*\];`. */
  predicate EndsList(s: string) { Closing(LStrip(s)) }

  predicate Hits(p: Pattern, s: string) {
    match p
    case ListStart => StartsList(s)
    case ListEnd => EndsList(s)
  }

  // ---------------------------------------------------------------- the edit as a function

  /** The lines up to the one that opens the list, the lines in it, and the rest. */
  datatype Parts = Parts(head: seq<string>, list: seq<string>, tail: seq<string>)

  function FirstHit(lines: seq<string>, p: Pattern): nat {
    if lines == [] || Hits(p, lines[0]) then 0 else 1 + FirstHit(lines[1..], p)
  }

  function Locate(lines: seq<string>): Result<Parts> {
    var s := FirstHit(lines, ListStart);
    if |lines| <= s then Err(NoList)
    else
      var after := lines[s + 1..];
      var e := FirstHit(after, ListEnd);
      if |after| <= e then Err(NoEnd)
      else Ok(Parts(lines[..s + 1], after[..e], after[e..]))
  }

  predicate Listed(list: seq<string>, pkg: string) {
    exists i :: 0 <= i < |list| && Strip(list[i]) == pkg
  }

  function Without(list: seq<string>, pkg: string): seq<string> {
    if list == [] then []
    else (if Strip(list[0]) == pkg then [] else [list[0]]) + Without(list[1..], pkg)
  }

  predicate EndsCrLf(s: string) { 2 <= |s| && s[|s| - 2] == '\r' && s[|s| - 1] == '\n' }

  function NewlineOf(lines: seq<string>): string {
    if exists i :: 0 <= i < |lines| && EndsCrLf(lines[i]) then "\r\n" else "\n"
  }

  /** The indent of the first entry that is not blank, or two more than the closing line. */
  function IndentFor(list: seq<string>, closing: string): string {
    if list == [] then Indent(closing) + "  "
    else if Strip(list[0]) != [] then Indent(list[0])
    else IndentFor(list[1..], closing)
  }

  function Lines(p: Parts): seq<string> { p.head + p.list + p.tail }

  function Entry(p: Parts, pkg: string): string
    requires p.tail != []
  {
    IndentFor(p.list, p.tail[0]) + pkg + NewlineOf(Lines(p))
  }

  function Edit(text: string, pkg: string, add: bool): Result<string> {
    var located := Locate(SplitLines(text));
    if located.Err? then Err(located.error)
    else
      var p := located.value;
      if add then
        Ok(if Listed(p.list, pkg) then text else Join(Lines(p.(list := p.list + [Entry(p, pkg)]))))
      else if !Listed(p.list, pkg) then Err(NotListed(pkg))
      else Ok(Join(Lines(p.(list := Without(p.list, pkg)))))
  }

  // ---------------------------------------------------------------- the edit as it is done

  method Find(lines: seq<string>, p: Pattern, start: nat) returns (at: int)
    requires start <= |lines|
    ensures -1 <= at < |lines|
    ensures at == -1 ==> FirstHit(lines[start..], p) == |lines| - start
    ensures 0 <= at ==> start <= at && at - start == FirstHit(lines[start..], p)
  {
    var i := start;
    while i < |lines|
      invariant start <= i <= |lines|
      invariant FirstHit(lines[start..], p) == i - start + FirstHit(lines[i..], p)
    {
      if Hits(p, lines[i]) { return i; }
      assert lines[i..][1..] == lines[i + 1..];
      i := i + 1;
    }
    at := -1;
  }

  /** The index of the line that opens the list and of the one that closes it. */
  method FindList(lines: seq<string>) returns (located: Result<(nat, nat)>)
    ensures located.Err? ==> Locate(lines) == Err(located.error)
    ensures located.Ok? ==>
      && located.value.0 < located.value.1 < |lines|
      && Locate(lines) == Ok(Cut(lines, located.value.0, located.value.1))
  {
    assert lines[0..] == lines;
    var start := Find(lines, ListStart, 0);
    if start == -1 { return Err(NoList); }
    var end := Find(lines, ListEnd, start + 1);
    if end == -1 { return Err(NoEnd); }
    var after := lines[start + 1..];
    assert after[..end - start - 1] == lines[start + 1..end];
    assert after[end - start - 1..] == lines[end..];
    located := Ok((start, end));
  }

  function Cut(lines: seq<string>, start: nat, end: nat): Parts
    requires start < end < |lines|
  {
    Parts(lines[..start + 1], lines[start + 1..end], lines[end..])
  }

  method EditPackages(text: string, pkg: string, add: bool) returns (r: Result<string>)
    ensures r == Edit(text, pkg, add)
  {
    var lines := SplitLines(text);
    var located := FindList(lines);
    if located.Err? { return Err(located.error); }
    var (start, end) := located.value;
    var list := lines[start + 1..end];
    var present := exists i :: 0 <= i < |list| && Strip(list[i]) == pkg;
    if add {
      if present { return Ok(text); }
      var entry := IndentFor(list, lines[end]) + pkg + NewlineOf(lines);
      CutInsert(lines, start, end, entry);
      lines := lines[..end] + [entry] + lines[end..];
      r := Ok(Join(lines));
    } else {
      if !present { return Err(NotListed(pkg)); }
      lines := lines[..start + 1] + Without(list, pkg) + lines[end..];
      r := Ok(Join(lines));
    }
  }

  lemma CutInsert(lines: seq<string>, start: nat, end: nat, entry: string)
    requires start < end < |lines|
    ensures var p := Cut(lines, start, end);
      Lines(p) == lines && Lines(p.(list := p.list + [entry])) == lines[..end] + [entry] + lines[end..]
  {
  }

  // ---------------------------------------------------------------- facts about locating

  lemma {:induction false} FirstHitMeaning(lines: seq<string>, p: Pattern)
    ensures FirstHit(lines, p) <= |lines|
    ensures FirstHit(lines, p) < |lines| ==> Hits(p, lines[FirstHit(lines, p)])
    ensures forall i :: 0 <= i < FirstHit(lines, p) ==> !Hits(p, lines[i])
  {
    if lines != [] && !Hits(p, lines[0]) {
      FirstHitMeaning(lines[1..], p);
      forall i | 0 <= i < FirstHit(lines, p) ensures !Hits(p, lines[i]) {
        if 0 < i { assert lines[i] == lines[1..][i - 1]; }
      }
    }
  }

  lemma {:induction false} FirstHitIs(lines: seq<string>, p: Pattern, n: nat)
    requires n < |lines| && Hits(p, lines[n])
    requires forall i :: 0 <= i < n ==> !Hits(p, lines[i])
    ensures FirstHit(lines, p) == n
  {
    if n > 0 {
      assert !Hits(p, lines[0]);
      forall i | 0 <= i < n - 1 ensures !Hits(p, lines[1..][i]) { assert lines[1..][i] == lines[i + 1]; }
      FirstHitIs(lines[1..], p, n - 1);
    }
  }

  /** A located list: no line before its opening line opens one, no line in it closes it. */
  ghost predicate Located(p: Parts) {
    && p.head != [] && StartsList(p.head[|p.head| - 1])
    && (forall i :: 0 <= i < |p.head| - 1 ==> !StartsList(p.head[i]))
    && (forall i :: 0 <= i < |p.list| ==> !EndsList(p.list[i]))
    && p.tail != [] && EndsList(p.tail[0])
  }

  lemma LocateIs(p: Parts)
    requires Located(p)
    ensures Locate(Lines(p)) == Ok(p)
  {
    var lines, s := Lines(p), |p.head| - 1;
    forall i | 0 <= i < s ensures !Hits(ListStart, lines[i]) { assert lines[i] == p.head[i]; }
    FirstHitIs(lines, ListStart, s);
    var after := lines[s + 1..];
    assert after == p.list + p.tail;
    forall i | 0 <= i < |p.list| ensures !Hits(ListEnd, after[i]) { assert after[i] == p.list[i]; }
    FirstHitIs(after, ListEnd, |p.list|);
    assert lines[..s + 1] == p.head;
  }

  lemma LocateMeaning(lines: seq<string>)
    requires Locate(lines).Ok?
    ensures Located(Locate(lines).value) && Lines(Locate(lines).value) == lines
  {
    var s := FirstHit(lines, ListStart);
    var after := lines[s + 1..];
    FirstHitMeaning(lines, ListStart);
    FirstHitMeaning(after, ListEnd);
    var e := FirstHit(after, ListEnd);
    PartsAreLocated(lines, s, after, e);
  }

  lemma PartsAreLocated(lines: seq<string>, s: nat, after: seq<string>, e: nat)
    requires s < |lines| && after == lines[s + 1..] && e < |after|
    requires StartsList(lines[s]) && EndsList(after[e])
    requires forall i :: 0 <= i < s ==> !StartsList(lines[i])
    requires forall i :: 0 <= i < e ==> !EndsList(after[i])
    ensures var p := Parts(lines[..s + 1], after[..e], after[e..]);
      Located(p) && Lines(p) == lines
  {
  }

  // ---------------------------------------------------------------- facts about lines

  ghost predicate IsLine(l: string) { l != [] && LineEnd(l) == |l| }
  ghost predicate Terminated(l: string) { l != [] && IsBreak(l[|l| - 1]) }

  /** Put next to each other, the two lines would not be one. */
  ghost predicate Separate(a: string, b: string) {
    Terminated(a) && b != [] && !(a[|a| - 1] == '\r' && b[0] == '\n')
  }

  ghost predicate Proper(lines: seq<string>) {
    && (forall i :: 0 <= i < |lines| ==> IsLine(lines[i]))
    && (forall i :: 0 <= i < |lines| - 1 ==> Separate(lines[i], lines[i + 1]))
  }

  lemma {:induction false} FirstLine(l: string, rest: string)
    requires IsLine(l) && (rest != [] ==> Separate(l, rest))
    ensures LineEnd(l + rest) == |l|
  {
    if rest == [] {
      assert l + rest == l;
    } else if !(l[0] == '\r' && 1 < |l| && l[1] == '\n') && !IsBreak(l[0]) {
      assert (l + rest)[1..] == l[1..] + rest;
      FirstLine(l[1..], rest);
    }
  }

  lemma {:induction false} LineOfText(t: string)
    requires t != []
    ensures var n := LineEnd(t);
      && IsLine(t[..n]) && (n < |t| ==> Separate(t[..n], t[n..]))
  {
    if !(t[0] == '\r' && 1 < |t| && t[1] == '\n') && !IsBreak(t[0]) && 1 < |t| {
      LineOfText(t[1..]);
      assert t[..LineEnd(t)][1..] == t[1..][..LineEnd(t[1..])];
    }
  }

  lemma {:induction false} SplitIsProper(t: string)
    ensures Proper(SplitLines(t)) && Join(SplitLines(t)) == t
    ensures t != [] ==> SplitLines(t) != [] && SplitLines(t)[0][0] == t[0]
    decreases |t|
  {
    if t != [] {
      LineOfText(t);
      SplitIsProper(t[LineEnd(t)..]);
      assert t == t[..LineEnd(t)] + t[LineEnd(t)..];
    }
  }

  lemma {:induction false} SplitOfJoin(lines: seq<string>)
    requires Proper(lines)
    ensures SplitLines(Join(lines)) == lines
    ensures lines != [] ==> Join(lines) != [] && Join(lines)[0] == lines[0][0]
  {
    if lines != [] {
      assert forall i :: 0 <= i < |lines[1..]| ==> lines[1..][i] == lines[i + 1];
      SplitOfJoin(lines[1..]);
      var rest := Join(lines[1..]);
      if 1 < |lines| { assert Separate(lines[0], lines[0 + 1]); }
      FirstLine(lines[0], rest);
      assert (lines[0] + rest)[|lines[0]|..] == rest;
    }
  }

  lemma {:induction false} JoinConcat(a: seq<string>, b: seq<string>)
    ensures Join(a + b) == Join(a) + Join(b)
  {
    if a == [] {
      assert a + b == b;
    } else {
      Uncons(a, b);
      JoinConcat(a[1..], b);
      Assoc(a[0], Join(a[1..]), Join(b));
    }
  }

  // ---------------------------------------------------------------- line ends and white space

  /** Only the terminator of a line breaks it. */
  lemma {:induction false} BreaksAreLast(l: string, i: nat)
    requires IsLine(l) && i < |l| && IsBreak(l[i])
    ensures forall k :: i <= k < |l| ==> IsSpace(l[k])
  {
    if !(l[0] == '\r' && 1 < |l| && l[1] == '\n') && !IsBreak(l[0]) {
      BreaksAreLast(l[1..], i - 1);
      forall k | i <= k < |l| ensures IsSpace(l[k]) { assert l[k] == l[1..][k - 1]; }
    }
  }

  lemma VisibleBeforeBreak(l: string, i: nat, k: nat)
    requires IsLine(l) && i <= k < |l| && !IsSpace(l[k])
    ensures !IsBreak(l[i])
  {
    if IsBreak(l[i]) { BreaksAreLast(l, i); }
  }

  lemma StrippedLineHasNoBreak(l: string)
    requires IsLine(l)
    ensures NoBreak(Strip(l)) && (Strip(l) != [] ==> NoBreak(Indent(l)))
  {
    var a, t := Indent(l), Strip(l);
    LStripMeaning(l);
    RStripMeaning(LStrip(l));
    if t != [] {
      var k := |a| + |t| - 1;
      assert forall i :: 0 <= i < |t| ==> l[|a| + i] == t[i];
      forall i | 0 <= i < |t| ensures !IsBreak(t[i]) { VisibleBeforeBreak(l, |a| + i, k); }
      forall i | 0 <= i < |a| ensures !IsBreak(a[i]) { VisibleBeforeBreak(l, i, k); }
    }
  }

  lemma ClosingIsVisible(l: string)
    requires EndsList(l)
    ensures Strip(l) != [] && Closing(LStrip(l))
  {
    RStripMeaning(LStrip(l));
    assert !IsSpace(LStrip(l)[0]);
  }

  lemma StripKeepsOpen(l: string)
    ensures Closing(Strip(l)) ==> EndsList(l)
  {
    RStripMeaning(LStrip(l));
  }

  // ---------------------------------------------------------------- clean names

  /** A name that sits on a line of its own and comes back from it. */
  ghost predicate Clean(pkg: string) {
    Strip(pkg) == pkg && NoBreak(pkg) && !Closing(pkg)
  }

  /** Only a clean name can be on the list. */
  lemma ListedIsClean(p: Parts, pkg: string)
    requires Located(p) && Proper(Lines(p)) && Listed(p.list, pkg)
    ensures Clean(pkg)
  {
    var i :| 0 <= i < |p.list| && Strip(p.list[i]) == pkg;
    var l := p.list[i];
    assert l == Lines(p)[|p.head| + i];
    StripTwice(l);
    StrippedLineHasNoBreak(l);
    StripKeepsOpen(l);
  }

  /** Only a clean name can be removed, from any text. */
  lemma RemovedIsClean(text: string, pkg: string)
    ensures Edit(text, pkg, false).Ok? ==> Clean(pkg)
  {
    var lines := SplitLines(text);
    SplitIsProper(text);
    if Locate(lines).Ok? {
      LocateMeaning(lines);
      if Listed(Locate(lines).value.list, pkg) { ListedIsClean(Locate(lines).value, pkg); }
    }
  }

  // ---------------------------------------------------------------- the added line

  lemma {:induction false} IndentIsPlain(list: seq<string>, closing: string)
    requires (forall i :: 0 <= i < |list| ==> IsLine(list[i])) && IsLine(closing) && EndsList(closing)
    ensures AllSpace(IndentFor(list, closing)) && NoBreak(IndentFor(list, closing))
  {
    if list == [] {
      ClosingIsVisible(closing);
      StrippedLineHasNoBreak(closing);
      LStripMeaning(closing);
    } else if Strip(list[0]) != [] {
      StrippedLineHasNoBreak(list[0]);
      LStripMeaning(list[0]);
    } else {
      assert forall i :: 0 <= i < |list[1..]| ==> list[1..][i] == list[i + 1];
      IndentIsPlain(list[1..], closing);
    }
  }

  lemma {:induction false} PlainLine(body: string, newline: string)
    requires NoBreak(body) && (newline == "\n" || newline == "\r\n")
    ensures LineEnd(body + newline) == |body| + |newline|
  {
    if body == [] {
      assert body + newline == newline;
    } else {
      assert (body + newline)[1..] == body[1..] + newline;
      PlainLine(body[1..], newline);
    }
  }

  /** What the entry of a clean name looks like as a line. */
  ghost predicate GoodEntry(line: string, indent: string, pkg: string, newline: string) {
    && line == indent + pkg + newline
    && IsLine(line) && Strip(line) == pkg && Indent(line) == indent && !EndsList(line)
    && line[|line| - 1] == '\n' && line[0] != '\n'
    && (EndsCrLf(line) <==> newline == "\r\n")
  }

  lemma EntryIsGood(indent: string, pkg: string, newline: string)
    requires AllSpace(indent) && NoBreak(indent) && Clean(pkg) && pkg != []
    requires newline == "\n" || newline == "\r\n"
    ensures GoodEntry(indent + pkg + newline, indent, pkg, newline)
  {
    var line := indent + pkg + newline;
    StrippedEnds(pkg);
    PlainLine(indent + pkg, newline);
    assert line == indent + (pkg + newline);
    LStripSkips(indent, pkg + newline);
    RStripSkips(pkg, newline);
    EntryStays(pkg, newline);
    LineTail(indent, pkg, newline);
  }

  lemma EntryStays(pkg: string, newline: string)
    requires pkg != [] && !IsSpace(pkg[|pkg| - 1]) && !Closing(pkg) && newline != [] && newline[0] != ';'
    ensures !Closing(pkg + newline)
  {
  }

  lemma LineTail(indent: string, pkg: string, newline: string)
    requires pkg != [] && !IsSpace(pkg[0]) && !IsSpace(pkg[|pkg| - 1]) && NoBreak(indent)
    requires newline == "\n" || newline == "\r\n"
    ensures var line := indent + pkg + newline;
      && line != [] && line[|line| - 1] == '\n' && line[0] != '\n'
      && (EndsCrLf(line) <==> newline == "\r\n")
  {
  }

  /** A good entry can stand anywhere between two lines of the list. */
  lemma EntryFits(p: Parts, line: string)
    requires Proper(Lines(p)) && p.head != [] && p.tail != []
    requires IsLine(line) && line[|line| - 1] == '\n' && line[0] != '\n'
    ensures Proper(Lines(p.(list := p.list + [line])))
  {
    var base, n := Lines(p), |p.head| + |p.list|;
    var lines := Lines(p.(list := p.list + [line]));
    assert lines == base[..n] + [line] + base[n..];
    assert Separate(base[n - 1], base[n - 1 + 1]);
    forall i | 0 <= i < |lines| - 1 ensures Separate(lines[i], lines[i + 1]) {
      if i < n - 1 {
        assert Separate(base[i], base[i + 1]);
      } else if n < i {
        assert Separate(base[i - 1], base[i - 1 + 1]);
      }
    }
  }

  // ---------------------------------------------------------------- adding

  ghost predicate ListOf(text: string, p: Parts) {
    Locate(SplitLines(text)) == Ok(p)
  }

  /** Adding a clean, absent name puts one good entry at the end of the list and changes
      nothing else, and the list is found again in the result. */
  lemma AddMeaning(text: string, pkg: string, p: Parts)
    requires ListOf(text, p) && Clean(pkg) && pkg != [] && !Listed(p.list, pkg)
    ensures Located(p) && Proper(Lines(p)) && Join(Lines(p)) == text
    ensures GoodEntry(Entry(p, pkg), IndentFor(p.list, p.tail[0]), pkg, NewlineOf(Lines(p)))
    ensures var q := p.(list := p.list + [Entry(p, pkg)]);
      Edit(text, pkg, true) == Ok(Join(Lines(q))) && ListOf(Join(Lines(q)), q)
  {
    SplitIsProper(text);
    LocateMeaning(SplitLines(text));
    EntryOfParts(p, pkg);
    EntryRelocates(p, Entry(p, pkg));
  }

  lemma EntryOfParts(p: Parts, pkg: string)
    requires Located(p) && Proper(Lines(p)) && Clean(pkg) && pkg != []
    ensures GoodEntry(Entry(p, pkg), IndentFor(p.list, p.tail[0]), pkg, NewlineOf(Lines(p)))
  {
    assert p.tail[0] == Lines(p)[|p.head| + |p.list|];
    forall i | 0 <= i < |p.list| ensures IsLine(p.list[i]) { assert p.list[i] == Lines(p)[|p.head| + i]; }
    IndentIsPlain(p.list, p.tail[0]);
    EntryIsGood(IndentFor(p.list, p.tail[0]), pkg, NewlineOf(Lines(p)));
  }

  lemma EntryRelocates(p: Parts, line: string)
    requires Located(p) && Proper(Lines(p)) && IsLine(line) && !EndsList(line)
    requires line[|line| - 1] == '\n' && line[0] != '\n'
    ensures var q := p.(list := p.list + [line]); ListOf(Join(Lines(q)), q)
  {
    var q := p.(list := p.list + [line]);
    EntryFits(p, line);
    SplitOfJoin(Lines(q));
    LocateIs(q);
  }

  lemma {:induction false} WithoutConcat(a: seq<string>, b: seq<string>, pkg: string)
    ensures Without(a + b, pkg) == Without(a, pkg) + Without(b, pkg)
  {
    if a == [] {
      assert a + b == b;
    } else {
      var first := if Strip(a[0]) == pkg then [] else [a[0]];
      Uncons(a, b);
      WithoutConcat(a[1..], b, pkg);
      Assoc(first, Without(a[1..], pkg), Without(b, pkg));
    }
  }

  lemma {:induction false} WithoutAbsent(list: seq<string>, pkg: string)
    requires !Listed(list, pkg)
    ensures Without(list, pkg) == list
  {
    if list != [] {
      assert forall i :: 0 <= i < |list[1..]| ==> list[1..][i] == list[i + 1];
      WithoutAbsent(list[1..], pkg);
    }
  }

  /** Removing is the inverse of adding, to the character, for exactly the clean names:
      whatever the text, its line breaks, its indentation and the rest of its list. */
  lemma RoundTrip(text: string, pkg: string, p: Parts)
    requires ListOf(text, p) && pkg != [] && !Listed(p.list, pkg)
    ensures Edit(text, pkg, true).Ok?
    ensures Edit(Edit(text, pkg, true).value, pkg, false) == Ok(text) <==> Clean(pkg)
  {
    RemovedIsClean(Edit(text, pkg, true).value, pkg);
    if Clean(pkg) {
      AddMeaning(text, pkg, p);
      var line := Entry(p, pkg);
      assert Listed(p.list + [line], pkg) by { assert (p.list + [line])[|p.list|] == line; }
      WithoutConcat(p.list, [line], pkg);
      WithoutAbsent(p.list, pkg);
      assert Without([line], pkg) == [];
      assert Without(p.list + [line], pkg) == p.list;
    }
  }

  const OPENING := LIST_NAME + " = [" + "\n"
  const CLOSING := "];" + "\n"

  /** A file in which nothing is listed. */
  const BARE := Parts([OPENING], [], [CLOSING])

  lemma OpeningOpens()
    ensures StartsList(OPENING)
  {
    var rest := OPENING[|LIST_NAME|..];
    assert rest[0] == ' ' && rest[1] == '=' && rest[2] == ' ' && rest[3] == '[';
    assert LStrip(rest) == rest[1..] by { assert LStrip(rest[1..]) == rest[1..]; }
    var ahead := rest[2..];
    assert rest[1..][1..] == ahead;
    assert ahead[1..][0] == '[';
    assert BracketAhead(ahead[1..]);
    assert ListHere(OPENING);
  }

  lemma TwoLinesSplit(a: string, b: string)
    requires IsLine(a) && IsLine(b) && Separate(a, b)
    ensures SplitLines(a + b) == [a, b]
  {
    FirstLine(a, b);
    assert (a + b)[..|a|] == a && (a + b)[|a|..] == b;
    assert b[..|b|] == b && b[|b|..] == [];
    assert SplitLines(b) == [b] + SplitLines([]);
  }

  lemma TwoLinesAreList(opening: string, closing: string)
    requires StartsList(opening) && EndsList(closing)
    ensures Locate([opening, closing]) == Ok(Parts([opening], [], [closing]))
  {
    var p := Parts([opening], [], [closing]);
    assert Lines(p) == [opening, closing];
    LocateIs(p);
  }

  lemma BareIsList()
    ensures ListOf(OPENING + CLOSING, BARE)
  {
    OpeningOpens();
    PlainLine(LIST_NAME + " = [", "\n");
    PlainLine("];", "\n");
    assert CLOSING[0] == ']' && CLOSING[1] == ';' && OPENING[|OPENING| - 1] == '\n';
    TwoLinesSplit(OPENING, CLOSING);
    TwoLinesAreList(OPENING, CLOSING);
  }

  lemma BareGrows(pkg: string)
    requires pkg != []
    ensures var added := Edit(OPENING + CLOSING, pkg, true); added.Ok? && added.value != OPENING + CLOSING
  {
    BareIsList();
    var entry := Entry(BARE, pkg);
    assert Lines(BARE.(list := BARE.list + [entry])) == [OPENING, entry, CLOSING];
    assert [OPENING, entry, CLOSING][1..] == [entry, CLOSING] && [entry, CLOSING][1..] == [CLOSING];
    assert Join([CLOSING]) == CLOSING + Join([]);
    assert Join([entry, CLOSING]) == entry + Join([CLOSING]);
    assert Join([OPENING, entry, CLOSING]) == OPENING + Join([entry, CLOSING]);
    assert |Join([OPENING, entry, CLOSING])| == |OPENING| + |entry| + |CLOSING|;
  }

  /** No name that is not clean, such as one with a space before it, comes off a bare list again
      without a trace. */
  lemma OddNameStays(pkg: string)
    requires pkg != [] && !Clean(pkg)
    ensures var added := Edit(OPENING + CLOSING, pkg, true);
      added.Ok? && Edit(added.value, pkg, false) != Ok(OPENING + CLOSING)
  {
    BareIsList();
    RoundTrip(OPENING + CLOSING, pkg, BARE);
  }

  lemma SpaceIsOdd(name: string)
    ensures !Clean(" " + name)
  {
    var odd := " " + name;
    LStripMeaning(odd);
    RStripMeaning(LStrip(odd));
    assert IsSpace(odd[0]);
  }

  /** Adding a name twice is adding it once. */
  lemma AddIsIdempotent(text: string, pkg: string, p: Parts)
    requires ListOf(text, p) && pkg != [] && Clean(pkg)
    ensures var once := Edit(text, pkg, true); Edit(once.value, pkg, true) == once
  {
    if !Listed(p.list, pkg) {
      AddMeaning(text, pkg, p);
      assert (p.list + [Entry(p, pkg)])[|p.list|] == Entry(p, pkg);
    }
  }

  lemma AddBoth(text: string, a: string, b: string, p: Parts)
    requires ListOf(text, p) && a != b
    requires Clean(a) && a != [] && !Listed(p.list, a)
    requires Clean(b) && b != [] && !Listed(p.list, b)
    ensures var one := Edit(text, a, true); var q := p.(list := p.list + [Entry(p, a), Entry(p, b)]);
      && one.Ok? && Edit(one.value, b, true) == Ok(Join(Lines(q))) && ListOf(Join(Lines(q)), q)
  {
    AddMeaning(text, a, p);
    var q := p.(list := p.list + [Entry(p, a)]);
    var r := p.(list := p.list + [Entry(p, a), Entry(p, b)]);
    SecondAdd(p, a, b, q, r);
    AddNext(Join(Lines(q)), b, q, r);
  }

  lemma SecondAdd(p: Parts, a: string, b: string, q: Parts, r: Parts)
    requires p.tail != [] && a != [] && a != b && !Listed(p.list, b)
    requires GoodEntry(Entry(p, a), IndentFor(p.list, p.tail[0]), a, NewlineOf(Lines(p)))
    requires q == p.(list := p.list + [Entry(p, a)])
    requires r == p.(list := p.list + [Entry(p, a), Entry(p, b)])
    ensures r == q.(list := q.list + [Entry(q, b)]) && !Listed(q.list, b)
  {
    SecondEntry(p, a, b);
    StillAbsent(p.list, Entry(p, a), b);
    Assoc(p.list, [Entry(p, a)], [Entry(p, b)]);
  }

  lemma StillAbsent(list: seq<string>, line: string, name: string)
    requires !Listed(list, name) && Strip(line) != name
    ensures !Listed(list + [line], name)
  {
    var more := list + [line];
    forall i | 0 <= i < |more| ensures Strip(more[i]) != name {
      assert i < |list| ==> more[i] == list[i];
    }
  }

  lemma AddNext(text: string, pkg: string, p: Parts, q: Parts)
    requires ListOf(text, p) && Clean(pkg) && pkg != [] && !Listed(p.list, pkg)
    requires p.tail != [] && q == p.(list := p.list + [Entry(p, pkg)])
    ensures Edit(text, pkg, true) == Ok(Join(Lines(q))) && ListOf(Join(Lines(q)), q)
  {
    AddMeaning(text, pkg, p);
  }

  /** With two names, removing the first added leaves the text that adding only the second
      makes, indentation and line breaks included. */
  lemma AddsCommuteWithRemove(text: string, a: string, b: string, p: Parts)
    requires ListOf(text, p) && a != b
    requires Clean(a) && a != [] && !Listed(p.list, a)
    requires Clean(b) && b != [] && !Listed(p.list, b)
    ensures var one := Edit(text, a, true);
      && one.Ok? && var two := Edit(one.value, b, true);
      && two.Ok? && Edit(two.value, a, false) == Edit(text, b, true)
  {
    var la, lb := Entry(p, a), Entry(p, b);
    AddMeaning(text, a, p);
    AddMeaning(text, b, p);
    AddBoth(text, a, b, p);
    WithoutFirst(p.list, la, lb, a);
  }

  lemma WithoutFirst(list: seq<string>, la: string, lb: string, a: string)
    requires !Listed(list, a) && Strip(la) == a && Strip(lb) != a
    ensures Listed(list + [la, lb], a) && Without(list + [la, lb], a) == list + [lb]
  {
    assert (list + [la, lb])[|list|] == la;
    WithoutConcat(list, [la, lb], a);
    WithoutAbsent(list, a);
    assert [la, lb][1..] == [lb] && [lb][1..] == [];
    assert Without([lb], a) == [lb] + Without([], a);
    assert Without([la, lb], a) == [] + Without([lb], a);
  }

  /** The entry of a second name is the same whether or not the first is there. */
  lemma SecondEntry(p: Parts, a: string, b: string)
    requires p.tail != []
    requires GoodEntry(Entry(p, a), IndentFor(p.list, p.tail[0]), a, NewlineOf(Lines(p))) && a != []
    ensures Entry(p.(list := p.list + [Entry(p, a)]), b) == Entry(p, b)
  {
    var line := Entry(p, a);
    IndentKept(p.list, line, p.tail[0]);
    NewlineKept(p, line);
  }

  lemma {:induction false} IndentKept(list: seq<string>, line: string, closing: string)
    requires Strip(line) != [] && Indent(line) == IndentFor(list, closing)
    ensures IndentFor(list + [line], closing) == IndentFor(list, closing)
  {
    if list != [] && Strip(list[0]) == [] {
      assert (list + [line])[1..] == list[1..] + [line];
      IndentKept(list[1..], line, closing);
    }
  }

  lemma NewlineKept(p: Parts, line: string)
    requires EndsCrLf(line) <==> NewlineOf(Lines(p)) == "\r\n"
    ensures NewlineOf(Lines(p.(list := p.list + [line]))) == NewlineOf(Lines(p))
  {
    var base, lines := Lines(p), Lines(p.(list := p.list + [line]));
    var n := |p.head| + |p.list|;
    assert lines == base[..n] + [line] + base[n..];
    if i :| 0 <= i < |base| && EndsCrLf(base[i]) {
      assert lines[if i < n then i else i + 1] == base[i];
    }
    if i :| 0 <= i < |lines| && EndsCrLf(lines[i]) {
      assert i != n ==> lines[i] == base[if i < n then i else i - 1];
    }
  }

  // ---------------------------------------------------------------- the list as a set

  ghost function NamesIn(list: seq<string>): set<string> {
    set i | 0 <= i < |list| && Strip(list[i]) != [] :: Strip(list[i])
  }

  /** The packages a text lists. */
  ghost function Packages(text: string): set<string> {
    var located := Locate(SplitLines(text));
    if located.Ok? then NamesIn(located.value.list) else {}
  }

  ghost predicate EndsReturn(l: string) { l != [] && l[|l| - 1] == '\r' }

  /** No carriage return stands alone, as in every text read with translated line ends. */
  ghost predicate NoLoneReturn(text: string) {
    forall l :: l in SplitLines(text) ==> !EndsReturn(l)
  }

  lemma {:induction false} WithoutMembers(list: seq<string>, pkg: string)
    ensures forall l :: l in Without(list, pkg) <==> l in list && Strip(l) != pkg
    ensures |Without(list, pkg)| <= |list|
  {
    if list != [] {
      WithoutMembers(list[1..], pkg);
      assert list == [list[0]] + list[1..];
    }
  }

  lemma NamesAreMembers(list: seq<string>, name: string)
    ensures name in NamesIn(list) <==> name != [] && exists l :: l in list && Strip(l) == name
  {
    if l :| l in list && Strip(l) == name {
      var i :| 0 <= i < |list| && list[i] == l;
      assert name != [] ==> Strip(list[i]) in NamesIn(list);
    }
    if name in NamesIn(list) {
      var i :| 0 <= i < |list| && Strip(list[i]) == name;
      assert list[i] in list;
    }
  }

  lemma NamesMore(list: seq<string>, line: string)
    requires Strip(line) != []
    ensures NamesIn(list + [line]) == NamesIn(list) + {Strip(line)}
  {
    forall name ensures name in NamesIn(list + [line]) <==> name in NamesIn(list) + {Strip(line)} {
      NamesAreMembers(list + [line], name);
      NamesAreMembers(list, name);
    }
  }

  /** Adding inserts exactly the name into the set and leaves all lines around it alone. */
  lemma AddInsertsName(text: string, pkg: string, p: Parts)
    requires ListOf(text, p) && Clean(pkg) && pkg != []
    ensures var added := Edit(text, pkg, true).value;
      && Packages(added) == Packages(text) + {pkg}
      && Locate(SplitLines(added)).Ok?
      && (var q := Locate(SplitLines(added)).value; q.head == p.head && q.tail == p.tail)
  {
    if Listed(p.list, pkg) {
      var i :| 0 <= i < |p.list| && Strip(p.list[i]) == pkg;
      assert pkg in NamesIn(p.list);
    } else {
      AddMeaning(text, pkg, p);
      NamesMore(p.list, Entry(p, pkg));
    }
  }

  /** Removing leaves all lines around the list alone, and the list is found again. */
  lemma RemoveMeaning(text: string, pkg: string, p: Parts)
    requires ListOf(text, p) && Listed(p.list, pkg) && NoLoneReturn(text)
    ensures var q := p.(list := Without(p.list, pkg));
      Edit(text, pkg, false) == Ok(Join(Lines(q))) && ListOf(Join(Lines(q)), q)
  {
    var q := p.(list := Without(p.list, pkg));
    SplitIsProper(text);
    LocateMeaning(SplitLines(text));
    WithoutMembers(p.list, pkg);
    RemainingIsProper(p, q.list);
    SplitOfJoin(Lines(q));
    forall i | 0 <= i < |q.list| ensures !EndsList(q.list[i]) { assert q.list[i] in p.list; }
    LocateIs(q);
  }

  /** Removing deletes exactly the name from the set. */
  lemma RemoveDeletesName(text: string, pkg: string, p: Parts)
    requires ListOf(text, p) && Listed(p.list, pkg) && NoLoneReturn(text)
    ensures var removed := Edit(text, pkg, false);
      removed.Ok? && Packages(removed.value) == Packages(text) - {pkg}
  {
    var list := Without(p.list, pkg);
    RemoveMeaning(text, pkg, p);
    WithoutMembers(p.list, pkg);
    forall name ensures name in NamesIn(list) <==> name in NamesIn(p.list) - {pkg} {
      NamesAreMembers(list, name);
      NamesAreMembers(p.list, name);
    }
  }

  lemma RemainingIsProper(p: Parts, list: seq<string>)
    requires Proper(Lines(p)) && p.tail != []
    requires forall l :: l in Lines(p) ==> !EndsReturn(l)
    requires forall l :: l in list ==> l in p.list
    ensures Proper(Lines(p.(list := list)))
  {
    var base, lines := Lines(p), Lines(p.(list := list));
    forall i | 0 <= i < |lines| ensures IsLine(lines[i]) {
      MemberOfLines(p, list, i);
    }
    forall i | 0 <= i < |lines| - 1 ensures Separate(lines[i], lines[i + 1]) {
      MemberOfLines(p, list, i);
      MemberOfLines(p, list, i + 1);
    }
  }

  lemma MemberOfLines(p: Parts, list: seq<string>, i: nat)
    requires Proper(Lines(p)) && p.tail != []
    requires forall l :: l in Lines(p) ==> !EndsReturn(l)
    requires forall l :: l in list ==> l in p.list
    requires i < |Lines(p.(list := list))|
    ensures var lines := Lines(p.(list := list));
      && IsLine(lines[i]) && !EndsReturn(lines[i])
      && (i < |lines| - 1 ==> Terminated(lines[i]))
  {
    var base, lines := Lines(p), Lines(p.(list := list));
    var l, h := lines[i], |p.head|;
    if h <= i < h + |list| {
      assert l == list[i - h] && l in list && l in p.list;
      var k :| 0 <= k < |p.list| && p.list[k] == l;
      assert base[h + k] == l && Separate(base[h + k], base[h + k + 1]);
    } else {
      var j := if i < h then i else i - |list| + |p.list|;
      assert base[j] == l;
      assert j < |base| - 1 ==> Separate(base[j], base[j + 1]);
    }
  }
}

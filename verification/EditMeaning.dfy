/**
 What an edit of the package list means, said of the characters and the lines of the text: which
 line opens the list and which closes it, what an entry looks like, and which edits there are.
 */
module EditMeaning {
  import opened Strings
  import opened PackageEditor

  // ---------------------------------------------------------------- the two patterns

  /** The list's name stands at `i`, after it only white space up to the equals sign at `j`, and
      there is a bracket at `k` on the same line. */
  ghost predicate OpensAt(l: string, i: nat, j: nat, k: nat) {
    && i + |LIST_NAME| <= j < k < |l|
    && l[i..i + |LIST_NAME|] == LIST_NAME
    && (forall m :: i + |LIST_NAME| <= m < j ==> IsSpace(l[m]))
    && l[j] == '=' && l[k] == '['
    && (forall m :: j < m < k ==> l[m] != '\n')
  }

  ghost predicate Opens(l: string) { exists i, j, k :: OpensAt(l, i, j, k) }

  /** The closing bracket and semicolon stand at `j`, with only white space before them. */
  ghost predicate ClosesAt(l: string, j: nat) {
    j + 1 < |l| && l[j] == ']' && l[j + 1] == ';' && forall m :: 0 <= m < j ==> IsSpace(l[m])
  }

  ghost predicate Closes(l: string) { exists j :: ClosesAt(l, j) }

  /** The first bracket before the line's end is at `k`. */
  ghost predicate BracketAt(s: string, k: nat) {
    k < |s| && s[k] == '[' && forall m :: 0 <= m < k ==> s[m] != '\n'
  }

  lemma {:induction false} BracketIsThere(s: string) returns (k: nat)
    requires BracketAhead(s)
    ensures BracketAt(s, k)
  {
    k := 0;
    if s[0] != '[' {
      var m := BracketIsThere(s[1..]);
      k := m + 1;
      forall i | 0 <= i < k ensures s[i] != '\n' {
        if 0 < i { assert s[i] == s[1..][i - 1]; }
      }
    }
  }

  lemma {:induction false} BracketIsFound(s: string, k: nat)
    requires BracketAt(s, k)
    ensures BracketAhead(s)
  {
    if s[0] != '[' { BracketIsFound(s[1..], k - 1); }
  }

  /** The first visible character of `s` is at `n`. */
  lemma {:induction false} StripsTo(s: string, n: nat)
    requires n < |s| && !IsSpace(s[n]) && forall m :: 0 <= m < n ==> IsSpace(s[m])
    ensures LStrip(s) == s[n..]
  {
    if 0 < n {
      StripsTo(s[1..], n - 1);
      assert s[1..][n - 1..] == s[n..];
    }
  }

  /** What is stripped in front is white space, and all of it. */
  lemma StripIsSuffix(s: string) returns (n: nat)
    ensures n <= |s| && LStrip(s) == s[n..] && (forall m :: 0 <= m < n ==> IsSpace(s[m]))
    ensures n < |s| ==> !IsSpace(s[n])
  {
    LStripMeaning(s);
    n := |Indent(s)|;
    assert s[..n] == Indent(s) && s[n..] == LStrip(s);
  }

  lemma HereIsThere(s: string) returns (j: nat, k: nat)
    requires ListHere(s)
    ensures OpensAt(s, 0, j, k)
  {
    var c := |LIST_NAME|;
    var rest := s[c..];
    var n := StripIsSuffix(rest);
    var b := BracketIsThere(rest[n..][1..]);
    j, k := c + n, c + n + 1 + b;
    forall m | c <= m < j ensures IsSpace(s[m]) { assert s[m] == rest[m - c]; }
    forall m | j < m < k ensures s[m] != '\n' { assert s[m] == rest[n..][1..][m - j - 1]; }
  }

  lemma HereIsFound(s: string, j: nat, k: nat)
    requires OpensAt(s, 0, j, k)
    ensures ListHere(s)
  {
    var c := |LIST_NAME|;
    var rest := s[c..];
    StripsTo(rest, j - c);
    var ahead := rest[j - c..][1..];
    forall m | 0 <= m < k - j - 1 ensures ahead[m] != '\n' { assert ahead[m] == s[j + 1 + m]; }
    BracketIsFound(ahead, k - j - 1);
  }

  lemma {:induction false} OpeningIsThere(l: string) returns (i: nat, j: nat, k: nat)
    requires StartsList(l)
    ensures OpensAt(l, i, j, k)
  {
    if ListHere(l) {
      i := 0;
      j, k := HereIsThere(l);
    } else {
      i, j, k := OpeningIsThere(l[1..]);
      Shifted(l, i, j, k);
      i, j, k := i + 1, j + 1, k + 1;
    }
  }

  /** The same, one character on. */
  lemma Shifted(l: string, i: nat, j: nat, k: nat)
    requires l != []
    ensures OpensAt(l[1..], i, j, k) <==> OpensAt(l, i + 1, j + 1, k + 1)
  {
    var t, c := l[1..], |LIST_NAME|;
    if i + c <= j < k < |t| {
      assert t[i..i + c] == l[i + 1..i + 1 + c];
      assert forall m :: 0 <= m < |t| ==> t[m] == l[m + 1];
      var inT := forall m :: i + c <= m < j ==> IsSpace(t[m]);
      var inL := forall m :: i + 1 + c <= m < j + 1 ==> IsSpace(l[m]);
      if inT {
        forall m | i + 1 + c <= m < j + 1 ensures IsSpace(l[m]) { assert t[m - 1] == l[m]; }
      }
      var lineT := forall m :: j < m < k ==> t[m] != '\n';
      var lineL := forall m :: j + 1 < m < k + 1 ==> l[m] != '\n';
      if lineT {
        forall m | j + 1 < m < k + 1 ensures l[m] != '\n' { assert t[m - 1] == l[m]; }
      }
      assert inT == inL && lineT == lineL;
    }
  }

  lemma {:induction false} OpeningIsFound(l: string, i: nat, j: nat, k: nat)
    requires OpensAt(l, i, j, k)
    ensures StartsList(l)
  {
    if i == 0 {
      HereIsFound(l, j, k);
    } else {
      Shifted(l, i - 1, j - 1, k - 1);
      OpeningIsFound(l[1..], i - 1, j - 1, k - 1);
    }
  }

  /** The line that opens a list, by its characters. */
  lemma OpeningMeans(l: string)
    ensures StartsList(l) <==> Opens(l)
  {
    if StartsList(l) { var i, j, k := OpeningIsThere(l); }
    if i, j, k :| OpensAt(l, i, j, k) { OpeningIsFound(l, i, j, k); }
  }

  /** The line that closes it. */
  lemma ClosingMeans(l: string)
    ensures EndsList(l) <==> Closes(l)
  {
    var n := StripIsSuffix(l);
    if EndsList(l) { assert ClosesAt(l, n); }
    if j :| ClosesAt(l, j) { StripsTo(l, j); }
  }

  // ---------------------------------------------------------------- the edit

  /** The list opens in line `s`, the first that opens one, and is closed in line `e`, the first
      after that which closes one. */
  ghost predicate OpenedAt(lines: seq<string>, s: nat) {
    s < |lines| && Opens(lines[s]) && forall i :: 0 <= i < s ==> !Opens(lines[i])
  }

  ghost predicate ClosedAt(lines: seq<string>, s: nat, e: nat) {
    s < e < |lines| && Closes(lines[e]) && forall i :: s < i < e ==> !Closes(lines[i])
  }

  ghost predicate ListAt(lines: seq<string>, s: nat, e: nat) { OpenedAt(lines, s) && ClosedAt(lines, s, e) }

  /** Some line of the list holds the name alone. */
  ghost predicate Entered(lines: seq<string>, s: nat, e: nat, pkg: string)
    requires s < e < |lines|
  {
    exists i :: s < i < e && Strip(lines[i]) == pkg
  }

  /** The white space that a line starts with. */
  ghost predicate LeadOf(l: string, lead: string) {
    lead <= l && AllSpace(lead) && (|lead| < |l| ==> !IsSpace(l[|lead|]))
  }

  /** The indent of the first line of the list that is not blank, or two more than that of the
      closing line. */
  ghost predicate IndentOf(list: seq<string>, closing: string, indent: string) {
    || (exists i: nat :: FirstVisible(list, i) && LeadOf(list[i], indent))
    || ((forall i :: 0 <= i < |list| ==> Strip(list[i]) == "")
        && exists lead :: LeadOf(closing, lead) && indent == lead + "  ")
  }

  ghost predicate FirstVisible(list: seq<string>, i: nat) {
    i < |list| && Strip(list[i]) != "" && forall m :: 0 <= m < i ==> Strip(list[m]) == ""
  }

  /** The text's line break, for which one carriage return before a line feed is enough. */
  ghost predicate BreakOf(lines: seq<string>, newline: string) {
    newline == if exists i :: 0 <= i < |lines| && EndsCrLf(lines[i]) then "\r\n" else "\n"
  }

  /** The lines at these places, in their order, are all that do not hold the name alone. */
  ghost predicate Keeps(list: seq<string>, pkg: string, kept: seq<string>, places: seq<nat>) {
    && |places| == |kept|
    && (forall k :: 0 <= k < |places| ==> places[k] < |list| && kept[k] == list[places[k]])
    && (forall k, m :: 0 <= k < m < |places| ==> places[k] < places[m])
    && (forall i :: 0 <= i < |list| ==> (i in places <==> Strip(list[i]) != pkg))
  }

  lemma LeadIsIndent(l: string)
    ensures LeadOf(l, Indent(l))
  {
    LStripMeaning(l);
    assert l[..|Indent(l)|] == Indent(l) && l[|Indent(l)|..] == LStrip(l);
  }

  lemma {:induction false} IndentMeans(list: seq<string>, closing: string)
    ensures IndentOf(list, closing, IndentFor(list, closing))
  {
    if list == [] {
      LeadIsIndent(closing);
    } else if Strip(list[0]) != [] {
      LeadIsIndent(list[0]);
      assert FirstVisible(list, 0);
    } else {
      var rest, indent := list[1..], IndentFor(list[1..], closing);
      IndentMeans(rest, closing);
      if i: nat :| FirstVisible(rest, i) && LeadOf(rest[i], indent) {
        assert FirstVisible(list, i + 1) by {
          forall m | 0 <= m < i + 1 ensures Strip(list[m]) == "" { if 0 < m { assert list[m] == rest[m - 1]; } }
        }
      } else {
        forall m | 0 <= m < |list| ensures Strip(list[m]) == "" { if 0 < m { assert list[m] == rest[m - 1]; } }
      }
    }
  }

  lemma KeepsMore(list: seq<string>, pkg: string, kept: seq<string>, places: seq<nat>, last: string)
    requires Keeps(list, pkg, kept, places)
    ensures if Strip(last) == pkg then Keeps(list + [last], pkg, kept, places)
            else Keeps(list + [last], pkg, kept + [last], places + [|list|])
  {
    var all := places + [|list|];
    assert forall i: nat :: i in all <==> i in places || i == |list|;
    assert forall i: nat :: i in places ==> i < |list|;
  }

  lemma {:induction false} WithoutKeeps(list: seq<string>, pkg: string) returns (places: seq<nat>)
    ensures Keeps(list, pkg, Without(list, pkg), places)
  {
    places := [];
    if list != [] {
      var n := |list| - 1;
      places := WithoutKeeps(list[..n], pkg);
      WithoutConcat(list[..n], [list[n]], pkg);
      KeepsMore(list[..n], pkg, Without(list[..n], pkg), places, list[n]);
      assert list[..n] + [list[n]] == list;
      if Strip(list[n]) != pkg { places := places + [n]; }
    }
  }

  /** The patterns mean what they are to mean, in every line. */
  lemma PatternsMean(lines: seq<string>)
    ensures forall i :: 0 <= i < |lines| ==> (StartsList(lines[i]) <==> Opens(lines[i]))
    ensures forall i :: 0 <= i < |lines| ==> (EndsList(lines[i]) <==> Closes(lines[i]))
  {
    forall i | 0 <= i < |lines| ensures StartsList(lines[i]) <==> Opens(lines[i]) { OpeningMeans(lines[i]); }
    forall i | 0 <= i < |lines| ensures EndsList(lines[i]) <==> Closes(lines[i]) { ClosingMeans(lines[i]); }
  }

  lemma CutIsLocated(lines: seq<string>, s: nat, e: nat)
    requires s < e < |lines| && StartsList(lines[s]) && EndsList(lines[e])
    requires (forall i :: 0 <= i < s ==> !StartsList(lines[i])) && (forall i :: s < i < e ==> !EndsList(lines[i]))
    ensures Located(Cut(lines, s, e)) && Lines(Cut(lines, s, e)) == lines
  {
    var p := Cut(lines, s, e);
    forall i | 0 <= i < |p.list| ensures !EndsList(p.list[i]) { assert p.list[i] == lines[s + 1 + i]; }
  }

  /** The bounds that are meant are the ones found. */
  lemma BoundsAreFound(lines: seq<string>, s: nat, e: nat)
    requires ListAt(lines, s, e)
    ensures Locate(lines) == Ok(Cut(lines, s, e))
  {
    PatternsMean(lines);
    CutIsLocated(lines, s, e);
    LocateIs(Cut(lines, s, e));
  }

  /** The bounds that are found are the ones meant. */
  lemma BoundsAreMeant(lines: seq<string>) returns (s: nat, e: nat)
    requires Locate(lines).Ok?
    ensures ListAt(lines, s, e)
  {
    var p := Locate(lines).value;
    LocateMeaning(lines);
    s, e := |p.head| - 1, |p.head| + |p.list|;
    PatternsMean(lines);
    forall i | s < i < e ensures !EndsList(lines[i]) { assert lines[i] == p.list[i - |p.head|]; }
    forall i | 0 <= i < s ensures !StartsList(lines[i]) { assert lines[i] == p.head[i]; }
  }

  ghost predicate NoneOpens(lines: seq<string>) { forall i :: 0 <= i < |lines| ==> !Opens(lines[i]) }

  /** The first line that opens a list is followed by none that closes one. */
  ghost predicate NoneCloses(lines: seq<string>) {
    exists s: nat :: OpenedAt(lines, s) && forall i :: s < i < |lines| ==> !Closes(lines[i])
  }

  lemma WhyNotLocated(lines: seq<string>)
    ensures Locate(lines) == Err(NoList) <==> NoneOpens(lines)
    ensures Locate(lines) == Err(NoEnd) <==> NoneCloses(lines)
    ensures Locate(lines).Err? ==> Locate(lines).error in {NoList, NoEnd}
  {
    PatternsMean(lines);
    FirstHitMeaning(lines, ListStart);
    var s := FirstHit(lines, ListStart);
    if s < |lines| {
      assert OpenedAt(lines, s);
      var after := lines[s + 1..];
      FirstHitMeaning(after, ListEnd);
      var e := FirstHit(after, ListEnd);
      if e < |after| {
        assert Closes(lines[s + 1 + e]);
      } else {
        forall i | s < i < |lines| ensures !Closes(lines[i]) { assert lines[i] == after[i - s - 1]; }
      }
      forall t: nat | OpenedAt(lines, t) ensures t == s {}
    }
  }

  // ---------------------------------------------------------------- the edit

  lemma EnteredIsListed(lines: seq<string>, s: nat, e: nat, pkg: string)
    requires s < e < |lines|
    ensures Entered(lines, s, e, pkg) <==> Listed(Cut(lines, s, e).list, pkg)
  {
    var list := Cut(lines, s, e).list;
    if i :| s < i < e && Strip(lines[i]) == pkg { assert list[i - s - 1] == lines[i]; }
    if i :| 0 <= i < |list| && Strip(list[i]) == pkg { assert lines[s + 1 + i] == list[i]; }
  }

  /** There is a list, and the name is not on it. */
  ghost predicate NotThere(lines: seq<string>, pkg: string) {
    exists s: nat, e: nat :: ListAt(lines, s, e) && !Entered(lines, s, e, pkg)
  }

  lemma NotThereMeans(lines: seq<string>, pkg: string)
    ensures NotThere(lines, pkg) <==> Locate(lines).Ok? && !Listed(Locate(lines).value.list, pkg)
  {
    if Locate(lines).Ok? {
      var s, e := BoundsAreMeant(lines);
      BoundsAreFound(lines, s, e);
      EnteredIsListed(lines, s, e, pkg);
    }
    if s: nat, e: nat :| ListAt(lines, s, e) && !Entered(lines, s, e, pkg) {
      BoundsAreFound(lines, s, e);
      EnteredIsListed(lines, s, e, pkg);
    }
  }

  /** Which edits cannot be made, for every text. */
  lemma EditErrors(text: string, pkg: string, add: bool)
    ensures Edit(text, pkg, add) == Err(NoList) <==> NoneOpens(SplitLines(text))
    ensures Edit(text, pkg, add) == Err(NoEnd) <==> NoneCloses(SplitLines(text))
    ensures Edit(text, pkg, add) == Err(NotListed(pkg)) <==> !add && NotThere(SplitLines(text), pkg)
    ensures Edit(text, pkg, add).Err? ==> Edit(text, pkg, add).error in {NoList, NoEnd, NotListed(pkg)}
  {
    WhyNotLocated(SplitLines(text));
    NotThereMeans(SplitLines(text), pkg);
  }

  /** What the added line is made of. */
  ghost predicate EntryOf(lines: seq<string>, s: nat, e: nat, pkg: string, entry: string)
    requires s < e < |lines|
  {
    exists indent, newline ::
      && entry == indent + pkg + newline
      && IndentOf(lines[s + 1..e], lines[e], indent) && BreakOf(lines, newline)
  }

  lemma EntryIsMeant(lines: seq<string>, s: nat, e: nat, pkg: string)
    requires s < e < |lines|
    ensures EntryOf(lines, s, e, pkg, Entry(Cut(lines, s, e), pkg))
  {
    var p := Cut(lines, s, e);
    IndentMeans(p.list, p.tail[0]);
    assert Lines(p) == lines && p.tail[0] == lines[e];
    var indent, newline := IndentFor(p.list, lines[e]), NewlineOf(lines);
    assert IndentOf(lines[s + 1..e], lines[e], indent) && BreakOf(lines, newline);
  }

  /** A name that is there is not added again; otherwise its entry goes in before the line that
      closes the list, and nothing else changes. */
  lemma AddIsMeant(text: string, pkg: string, s: nat, e: nat) returns (entry: string)
    requires ListAt(SplitLines(text), s, e)
    ensures var lines := SplitLines(text);
      && EntryOf(lines, s, e, pkg, entry)
      && Edit(text, pkg, true)
         == Ok(if Entered(lines, s, e, pkg) then text else Join(lines[..e] + [entry] + lines[e..]))
  {
    var lines := SplitLines(text);
    BoundsAreFound(lines, s, e);
    EnteredIsListed(lines, s, e, pkg);
    EntryIsMeant(lines, s, e, pkg);
    entry := Entry(Cut(lines, s, e), pkg);
    CutInsert(lines, s, e, entry);
  }

  /** A name that is there is taken out wherever it stands alone in its line of the list, and
      nothing else changes. */
  lemma RemoveIsMeant(text: string, pkg: string, s: nat, e: nat) returns (kept: seq<string>, places: seq<nat>)
    requires ListAt(SplitLines(text), s, e) && Entered(SplitLines(text), s, e, pkg)
    ensures var lines := SplitLines(text);
      && Keeps(lines[s + 1..e], pkg, kept, places)
      && Edit(text, pkg, false) == Ok(Join(lines[..s + 1] + kept + lines[e..]))
  {
    var lines := SplitLines(text);
    var p := Cut(lines, s, e);
    BoundsAreFound(lines, s, e);
    EnteredIsListed(lines, s, e, pkg);
    kept := Without(p.list, pkg);
    places := WithoutKeeps(p.list, pkg);
  }
}

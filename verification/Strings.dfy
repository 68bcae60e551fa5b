/** Characters and white space, as the language the daemon is written in has them. */
module Strings {
  /** The characters that end a line. */
  predicate IsBreak(c: char) {
    c == '\n' || c == '\r' || '\U{0B}' <= c <= '\U{0C}' || '\U{1C}' <= c <= '\U{1E}'
    || c == '\U{85}' || c == '\U{2028}' || c == '\U{2029}'
  }

  /** White space. */
  predicate IsSpace(c: char) {
    IsBreak(c) || c == '\t' || c == ' ' || c == '\U{1F}' || c == '\U{A0}' || c == '\U{1680}'
    || '\U{2000}' <= c <= '\U{200A}' || c == '\U{202F}' || c == '\U{205F}' || c == '\U{3000}'
  }

  predicate NoBreak(s: string) { forall i :: 0 <= i < |s| ==> !IsBreak(s[i]) }
  predicate AllSpace(s: string) { forall i :: 0 <= i < |s| ==> IsSpace(s[i]) }

  function LStrip(s: string): string {
    if s != [] && IsSpace(s[0]) then LStrip(s[1..]) else s
  }

  function RStrip(s: string): string {
    if s != [] && IsSpace(s[|s| - 1]) then RStrip(s[..|s| - 1]) else s
  }

  function Strip(s: string): string { RStrip(LStrip(s)) }

  /** The leading white space of a line. */
  function Indent(s: string): string {
    if s != [] && IsSpace(s[0]) then [s[0]] + Indent(s[1..]) else []
  }

  // ---------------------------------------------------------------- facts about stripping

  lemma {:induction false} LStripMeaning(s: string)
    ensures Indent(s) + LStrip(s) == s && AllSpace(Indent(s))
    ensures LStrip(s) != [] ==> !IsSpace(LStrip(s)[0])
  {
    if s != [] && IsSpace(s[0]) {
      var a, b := Indent(s[1..]), LStrip(s[1..]);
      LStripMeaning(s[1..]);
      assert Indent(s) == [s[0]] + a && LStrip(s) == b;
      assert [s[0]] + a + b == [s[0]] + (a + b) == s;
    }
  }

  lemma {:induction false} RStripMeaning(s: string)
    ensures |RStrip(s)| <= |s| && RStrip(s) == s[..|RStrip(s)|]
    ensures forall i :: |RStrip(s)| <= i < |s| ==> IsSpace(s[i])
    ensures RStrip(s) != [] ==> !IsSpace(RStrip(s)[|RStrip(s)| - 1])
  {
    if s != [] && IsSpace(s[|s| - 1]) {
      var init := s[..|s| - 1];
      RStripMeaning(init);
      forall i | |RStrip(s)| <= i < |s| ensures IsSpace(s[i]) {
        if i < |init| { assert s[i] == init[i]; }
      }
    }
  }

  lemma {:induction false} LStripSkips(a: string, b: string)
    requires AllSpace(a) && (b != [] ==> !IsSpace(b[0]))
    ensures LStrip(a + b) == b && Indent(a + b) == a
  {
    if a == [] {
      assert a + b == b;
    } else {
      assert (a + b)[1..] == a[1..] + b;
      LStripSkips(a[1..], b);
    }
  }

  lemma {:induction false} RStripSkips(a: string, b: string)
    requires AllSpace(b) && (a != [] ==> !IsSpace(a[|a| - 1]))
    ensures RStrip(a + b) == a
  {
    if b == [] {
      assert a + b == a;
    } else {
      assert (a + b)[..|a + b| - 1] == a + b[..|b| - 1];
      RStripSkips(a, b[..|b| - 1]);
    }
  }

  /** A name that stripping leaves alone starts and ends with something visible. */
  lemma StrippedEnds(pkg: string)
    requires Strip(pkg) == pkg && pkg != []
    ensures !IsSpace(pkg[0]) && !IsSpace(pkg[|pkg| - 1])
  {
    LStripMeaning(pkg);
    RStripMeaning(LStrip(pkg));
    assert |LStrip(pkg)| == |pkg|;
    assert LStrip(pkg) == pkg;
  }

  lemma StripTwice(s: string)
    ensures Strip(Strip(s)) == Strip(s)
  {
    var t := Strip(s);
    LStripMeaning(s);
    RStripMeaning(LStrip(s));
    if t != [] {
      assert t[0] == LStrip(s)[0];
      LStripSkips([], t);
      RStripSkips(t, []);
      assert [] + t == t && t + [] == t;
    }
  }
}

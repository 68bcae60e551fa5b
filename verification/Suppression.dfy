/**
 Suppression of repeated warnings: a table of when each key was last let through, bounded to
 the most recent keys. What it decides is stated over the whole history of what was let
 through, which the table does not keep.
 */
module Suppression {
  import opened Options
  import opened Sequences

  datatype Entry = Entry(key: string, at: int)

  const CAP: nat := 128

  function Without(t: seq<Entry>, key: string): seq<Entry> {
    if t == [] then []
    else Without(t[..|t| - 1], key) + if t[|t| - 1].key == key then [] else [t[|t| - 1]]
  }

  function Tail(t: seq<Entry>, n: nat): seq<Entry> { if |t| <= n then t else t[|t| - n..] }

  /** The time noted for `key`. */
  function Lookup(t: seq<Entry>, key: string): Option<int> {
    if t == [] then None
    else if t[|t| - 1].key == key then Some(t[|t| - 1].at)
    else Lookup(t[..|t| - 1], key)
  }

  ghost predicate Distinct(t: seq<Entry>) { forall i, j :: 0 <= i < j < |t| ==> t[i].key != t[j].key }

  // ---------------------------------------------------------------- the history

  /** The last time each key was let through, in that order. */
  function LastEach(h: seq<Entry>): seq<Entry> {
    if h == [] then [] else Without(LastEach(h[..|h| - 1]), h[|h| - 1].key) + [h[|h| - 1]]
  }

  /** The other keys let through since `key` was. */
  function Since(h: seq<Entry>, key: string): set<string> {
    if h == [] || h[|h| - 1].key == key then {} else Since(h[..|h| - 1], key) + {h[|h| - 1].key}
  }

  /** A warning is held back when its key was let through less than the interval ago and
      fewer other keys than the table holds were let through since. */
  predicate HeldBack(h: seq<Entry>, key: string, now: int, interval: int) {
    Lookup(h, key).Some? && now - Lookup(h, key).value < interval && |Since(h, key)| < CAP
  }

  class OperationalState {
    var table: seq<Entry>
    /** All that was ever let through. */
    ghost var history: seq<Entry>

    constructor ()
      ensures Valid() && history == []
    {
      table, history := [], [];
    }

    ghost predicate Valid()
      reads this
    {
      table == Tail(LastEach(history), CAP)
    }

    method ShouldLog(key: string, interval: int, now: int) returns (allowed: bool)
      requires Valid()
      modifies this
      ensures Valid() && |table| <= CAP
      ensures allowed <==> !HeldBack(old(history), key, now, interval)
      ensures history == if allowed then old(history) + [Entry(key, now)] else old(history)
    {
      TableTells(history, key);
      var previous := Lookup(table, key);
      if previous.Some? && now - previous.value < interval { return false; }
      NextTable(history, Entry(key, now));
      history := history + [Entry(key, now)];
      table := Without(table, key) + [Entry(key, now)];
      ghost var wanted := Tail(table, CAP);
      while |table| > CAP
        modifies this`table
        invariant Tail(table, CAP) == wanted
      {
        DropOldest(table);
        table := table[1..];
      }
      allowed := true;
    }
  }

  lemma DropOldest(t: seq<Entry>)
    requires |t| > CAP
    ensures Tail(t[1..], CAP) == Tail(t, CAP)
  {
  }

  // ---------------------------------------------------------------- keys and places

  lemma {:induction false} WithoutMembers(t: seq<Entry>, key: string, e: Entry)
    ensures e in Without(t, key) <==> e in t && e.key != key
  {
    if t != [] {
      assert t == t[..|t| - 1] + [t[|t| - 1]];
      WithoutMembers(t[..|t| - 1], key, e);
    }
  }

  lemma {:induction false} WithoutDistinct(t: seq<Entry>, key: string)
    requires Distinct(t)
    ensures Distinct(Without(t, key))
    ensures (forall i :: 0 <= i < |t| ==> t[i].key != key) ==> Without(t, key) == t
  {
    if t != [] {
      var init, last := t[..|t| - 1], t[|t| - 1];
      assert t == init + [last];
      WithoutDistinct(init, key);
      var w := Without(init, key);
      forall i | 0 <= i < |w| ensures w[i].key != last.key {
        WithoutMembers(init, key, w[i]);
      }
    }
  }

  lemma {:induction false} WithoutConcat(a: seq<Entry>, b: seq<Entry>, key: string)
    ensures Without(a + b, key) == Without(a, key) + Without(b, key)
  {
    if b == [] {
      assert a + b == a;
    } else {
      assert (a + b)[..|a + b| - 1] == a + b[..|b| - 1];
      WithoutConcat(a, b[..|b| - 1], key);
    }
  }

  lemma {:induction false} LastEachDistinct(h: seq<Entry>)
    ensures Distinct(LastEach(h))
  {
    if h != [] {
      var before, e := LastEach(h[..|h| - 1]), h[|h| - 1];
      LastEachDistinct(h[..|h| - 1]);
      WithoutDistinct(before, e.key);
      var w := Without(before, e.key);
      forall i | 0 <= i < |w| ensures w[i].key != e.key { WithoutMembers(before, e.key, w[i]); }
    }
  }

  /** `w` is `t` without the entry at `q`. */
  ghost predicate Gap(t: seq<Entry>, w: seq<Entry>, q: nat) {
    && q < |t| && |w| + 1 == |t|
    && (forall j :: 0 <= j < q ==> w[j] == t[j])
    && (forall j :: q <= j < |w| ==> w[j] == t[j + 1])
  }

  /** A key that occurs once is dropped from one place. */
  lemma {:induction false} WithoutOne(t: seq<Entry>, q: nat)
    requires Distinct(t) && q < |t|
    ensures Gap(t, Without(t, t[q].key), q)
  {
    var n := |t| - 1;
    if q == n {
      WithoutDistinct(t[..n], t[n].key);
    } else {
      WithoutOne(t[..n], q);
      var w := Without(t[..n], t[q].key);
      assert t[..n][q] == t[q];
      forall j | q <= j < n ensures (w + [t[n]])[j] == t[j + 1] {
        if j < |w| { assert w[j] == t[..n][j + 1]; }
      }
    }
  }

  /** Dropping the oldest before or after makes no difference. */
  lemma NextTable(h: seq<Entry>, e: Entry)
    ensures Tail(LastEach(h + [e]), CAP) == Tail(Without(Tail(LastEach(h), CAP), e.key) + [e], CAP)
  {
    assert (h + [e])[..|h|] == h;
    var all := LastEach(h);
    LastEachDistinct(h);
    TailOfMore(all, e);
  }

  lemma TailOfMore(all: seq<Entry>, e: Entry)
    requires Distinct(all)
    ensures Tail(Without(all, e.key) + [e], CAP) == Tail(Without(Tail(all, CAP), e.key) + [e], CAP)
  {
    if |all| > CAP {
      var k := |all| - CAP;
      var tail := all[k..];
      assert all == all[..k] + tail;
      WithoutConcat(all[..k], tail, e.key);
      var front, back := Without(all[..k], e.key), Without(tail, e.key);
      Assoc(front, back, [e]);
      WithoutLength(tail, e.key);
    }
  }

  /** A key that occurs at most once makes the sequence at most one shorter. */
  lemma WithoutLength(t: seq<Entry>, key: string)
    requires Distinct(t)
    ensures |t| - 1 <= |Without(t, key)| <= |t|
  {
    if i :| 0 <= i < |t| && t[i].key == key {
      WithoutOne(t, i);
    } else {
      WithoutDistinct(t, key);
    }
  }

  // ---------------------------------------------------------------- what the table tells

  /** The place of `key` among the last times: it is there if and only if it was ever let
      through, with that time, and behind it are the keys let through since. */
  lemma {:induction false} PlaceOf(h: seq<Entry>, key: string) returns (i: nat)
    requires Lookup(h, key).Some?
    ensures i < |LastEach(h)| && LastEach(h)[i] == Entry(key, Lookup(h, key).value)
    ensures |LastEach(h)| - 1 - i == |Since(h, key)|
    ensures forall j :: i < j < |LastEach(h)| ==> LastEach(h)[j].key in Since(h, key)
  {
    var n := |h| - 1;
    var before, last := LastEach(h[..n]), h[n];
    var w := Without(before, last.key);
    if last.key == key {
      i := |w|;
    } else {
      var p := PlaceOf(h[..n], key);
      LastEachDistinct(h[..n]);
      i := Dropped(before, p, last.key, Since(h[..n], key));
    }
  }

  /** The entries behind place `p` are of the keys in `since`, one for each. */
  ghost predicate Behind(t: seq<Entry>, p: nat, since: set<string>) {
    p < |t| && |t| - 1 - p == |since| && forall j :: p < j < |t| ==> t[j].key in since
  }

  /** In `w`, which another key was dropped from, the entry of place `p` is at `i`. */
  ghost predicate Moved(t: seq<Entry>, p: nat, w: seq<Entry>, i: nat, key: string, since: set<string>)
    requires p < |t|
  {
    && i < |w| && w[i] == t[p] && |w| - i == |since + {key}|
    && forall j :: i < j < |w| ==> w[j].key in since
  }

  lemma DroppedAhead(t: seq<Entry>, p: nat, w: seq<Entry>, q: nat, since: set<string>)
    requires Distinct(t) && Behind(t, p, since) && q < p && Gap(t, w, q)
    ensures Moved(t, p, w, p - 1, t[q].key, since)
  {
    NotBehind(t, p, t[q].key, since);
    assert |since + {t[q].key}| == |since| + 1;
    forall j | p - 1 < j < |w| ensures w[j].key in since { assert w[j] == t[j + 1]; }
    assert w[p - 1] == t[p];
  }

  lemma DroppedBehind(t: seq<Entry>, p: nat, w: seq<Entry>, q: nat, since: set<string>)
    requires Behind(t, p, since) && p < q < |t| && Gap(t, w, q)
    ensures Moved(t, p, w, p, t[q].key, since)
  {
    assert since + {t[q].key} == since;
    forall j | p < j < |w| ensures w[j].key in since {
      if j < q { assert w[j] == t[j]; } else { assert w[j] == t[j + 1]; }
    }
    assert w[p] == t[p];
  }

  /** How the place moves when another key is dropped and noted again at the end. */
  lemma Dropped(t: seq<Entry>, p: nat, key: string, since: set<string>) returns (i: nat)
    requires Distinct(t) && Behind(t, p, since) && t[p].key != key
    ensures Moved(t, p, Without(t, key), i, key, since)
  {
    i := p;
    if q :| 0 <= q < |t| && t[q].key == key {
      WithoutOne(t, q);
      if q < p {
        DroppedAhead(t, p, Without(t, key), q, since);
        i := p - 1;
      } else {
        DroppedBehind(t, p, Without(t, key), q, since);
      }
    } else {
      WithoutDistinct(t, key);
      NotBehind(t, p, key, since);
    }
  }

  lemma NotBehind(t: seq<Entry>, p: nat, key: string, since: set<string>)
    requires Distinct(t) && Behind(t, p, since) && forall j :: p < j < |t| ==> t[j].key != key
    ensures key !in since
  {
    var back := t[p + 1..];
    forall j | 0 <= j < |back| ensures back[j].key in since && back[j].key != key {
      assert back[j] == t[p + 1 + j];
    }
    Fills(back, since);
    assert !HasKey(back, key);
  }

  ghost predicate HasKey(t: seq<Entry>, key: string) { exists j :: 0 <= j < |t| && t[j].key == key }

  /** Distinct keys, as many as the set has, are all of the set. */
  lemma {:induction false} Fills(t: seq<Entry>, keys: set<string>)
    requires Distinct(t) && |t| == |keys| && forall j :: 0 <= j < |t| ==> t[j].key in keys
    ensures forall k :: k in keys ==> HasKey(t, k)
  {
    if t != [] {
      var n := |t| - 1;
      Fills(t[..n], keys - {t[n].key});
      forall k | k in keys ensures HasKey(t, k) {
        if k == t[n].key {
          assert t[n].key == k;
        } else {
          assert HasKey(t[..n], k);
          var j :| 0 <= j < |t[..n]| && t[..n][j].key == k;
          assert t[j].key == k;
        }
      }
    }
  }

  lemma {:induction false} LookupAt(t: seq<Entry>, i: nat)
    requires Distinct(t) && i < |t|
    ensures Lookup(t, t[i].key) == Some(t[i].at)
  {
    if i < |t| - 1 { LookupAt(t[..|t| - 1], i); }
  }

  lemma {:induction false} LookupNone(t: seq<Entry>, key: string)
    ensures Lookup(t, key).Some? <==> exists i :: 0 <= i < |t| && t[i].key == key
  {
    if t != [] {
      LookupNone(t[..|t| - 1], key);
      if i :| 0 <= i < |t| && t[i].key == key { assert i == |t| - 1 || t[..|t| - 1][i].key == key; }
      if Lookup(t[..|t| - 1], key).Some? {
        var i :| 0 <= i < |t| - 1 && t[..|t| - 1][i].key == key;
        assert t[i].key == key;
      }
    }
  }

  lemma LookupFrom(t: seq<Entry>, i: nat, cut: nat)
    requires Distinct(t) && i < |t| && cut <= |t|
    ensures Lookup(t[cut..], t[i].key) == if i >= cut then Some(t[i].at) else None
  {
    var tail := t[cut..];
    LookupNone(tail, t[i].key);
    if i >= cut {
      LookupAt(tail, i - cut);
    } else {
      forall j | 0 <= j < |tail| ensures tail[j].key != t[i].key { assert tail[j] == t[cut + j]; }
    }
  }

  lemma {:induction false} LastEachMembers(h: seq<Entry>, e: Entry)
    requires e in LastEach(h)
    ensures e in h
  {
    var n := |h| - 1;
    if e != h[n] {
      assert e in Without(LastEach(h[..n]), h[n].key);
      WithoutMembers(LastEach(h[..n]), h[n].key, e);
      LastEachMembers(h[..n], e);
      var k :| 0 <= k < n && h[..n][k] == e;
      assert h[k] == e;
    }
  }

  lemma NeverListed(h: seq<Entry>, key: string, tail: seq<Entry>)
    requires Lookup(h, key).None? && forall e :: e in tail ==> e in LastEach(h)
    ensures Lookup(tail, key).None?
  {
    LookupNone(h, key);
    LookupNone(tail, key);
    forall j | 0 <= j < |tail| ensures tail[j].key != key {
      assert tail[j] in tail;
      LastEachMembers(h, tail[j]);
    }
  }

  /** The bounded table knows a key if and only if fewer other keys than it holds were let
      through since, and then it knows when. */
  lemma TableTells(h: seq<Entry>, key: string)
    ensures Lookup(Tail(LastEach(h), CAP), key)
         == if Lookup(h, key).Some? && |Since(h, key)| < CAP then Lookup(h, key) else None
  {
    var all := LastEach(h);
    var cut := if |all| <= CAP then 0 else |all| - CAP;
    assert Tail(all, CAP) == all[cut..];
    if Lookup(h, key).Some? {
      var i := PlaceOf(h, key);
      LastEachDistinct(h);
      LookupFrom(all, i, cut);
    } else {
      NeverListed(h, key, all[cut..]);
    }
  }

  // ---------------------------------------------------------------- consequences

  ghost predicate Chronological(h: seq<Entry>) { forall i, j :: 0 <= i <= j < |h| ==> h[i].at <= h[j].at }

  lemma {:induction false} WithoutSorted(t: seq<Entry>, key: string)
    requires Chronological(t)
    ensures Chronological(Without(t, key))
  {
    if t != [] {
      var init, last := t[..|t| - 1], t[|t| - 1];
      WithoutSorted(init, key);
      var w := Without(init, key);
      forall i | 0 <= i < |w| ensures w[i].at <= last.at {
        WithoutMembers(init, key, w[i]);
        var j :| 0 <= j < |init| && init[j] == w[i];
        assert t[j] == init[j];
      }
    }
  }

  /** Under a clock that never goes back the table is in the order of its times. */
  lemma {:induction false} LastEachSorted(h: seq<Entry>)
    requires Chronological(h)
    ensures Chronological(LastEach(h))
  {
    if h != [] {
      var n := |h| - 1;
      var before, last := LastEach(h[..n]), h[n];
      LastEachSorted(h[..n]);
      WithoutSorted(before, last.key);
      var w := Without(before, last.key);
      forall i | 0 <= i < |w| ensures w[i].at <= last.at {
        assert w[i] in w;
        WithoutMembers(before, last.key, w[i]);
        LastEachMembers(h[..n], w[i]);
        NotLater(h, n, w[i]);
      }
    }
  }

  lemma NotLater(h: seq<Entry>, n: nat, e: Entry)
    requires Chronological(h) && n < |h| && e in h[..n]
    ensures e.at <= h[n].at
  {
    var k :| 0 <= k < n && h[..n][k] == e;
    assert h[k] == e;
  }

  /** `Since` in the history's own terms: the keys after the last place of `key`. */
  lemma {:induction false} SinceMeaning(h: seq<Entry>, key: string, i: nat)
    requires i < |h| && h[i].key == key && forall j :: i < j < |h| ==> h[j].key != key
    ensures Lookup(h, key) == Some(h[i].at)
    ensures forall k :: k in Since(h, key) <==> exists j :: i < j < |h| && h[j].key == k
  {
    var n := |h| - 1;
    if i < n {
      SinceMeaning(h[..n], key, i);
      forall k ensures k in Since(h, key) <==> exists j :: i < j < |h| && h[j].key == k {
        if k in Since(h[..n], key) {
          var j :| i < j < n && h[..n][j].key == k;
          assert h[j].key == k;
        }
        if j :| i < j < |h| && h[j].key == k { assert j == n || h[..n][j].key == k; }
      }
    }
  }

  /** `key` was last let through at place `k` of the history. */
  ghost predicate LastPlace(h: seq<Entry>, key: string, k: nat) {
    k < |h| && h[k].key == key && forall j :: k < j < |h| ==> h[j].key != key
  }

  ghost function KeysAfter(h: seq<Entry>, k: nat): set<string> { set j | k < j < |h| :: h[j].key }

  /** A warning is held back if and only if its key was let through, the last time less than the interval
      ago, and fewer than 128 keys were let through after that. */
  lemma HeldBackMeans(h: seq<Entry>, key: string, now: int, interval: int)
    ensures HeldBack(h, key, now, interval)
       <==> exists k: nat :: LastPlace(h, key, k) && now - h[k].at < interval && |KeysAfter(h, k)| < 128
  {
    forall k: nat | LastPlace(h, key, k) ensures Lookup(h, key) == Some(h[k].at) && Since(h, key) == KeysAfter(h, k) {
      SinceMeaning(h, key, k);
    }
    if Lookup(h, key).Some? {
      var k := PlaceInHistory(h, key);
      assert LastPlace(h, key, k);
    }
  }

  lemma {:induction false} PlaceInHistory(h: seq<Entry>, key: string) returns (k: nat)
    requires Lookup(h, key).Some?
    ensures LastPlace(h, key, k)
  {
    var n := |h| - 1;
    if h[n].key == key {
      k := n;
    } else {
      k := PlaceInHistory(h[..n], key);
      forall j | k < j < |h| ensures h[j].key != key {
        if j < n { assert h[..n][j] == h[j]; }
      }
    }
  }
}

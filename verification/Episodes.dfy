/**
 The web timeline's grouping of adjacent events into episodes of one service.
 */
module Episodes {
  import opened Sequences

  datatype Kind = Failure | Cleared | Restart | Autofix | OtherKind

  /** An event as the page gets it; the unit is empty when the event is about none. Times are
      in seconds. */
  datatype Event = Event(kind: Kind, unit: string, scope: string, ts: int)

  datatype Group = Group(episode: bool, unit: string, scope: string, ts: int, events: seq<Event>)

  const EPISODE_WINDOW: int := 900

  predicate Episodic(e: Event) { e.unit != "" && !e.kind.OtherKind? }

  function Gap(a: Event, b: Event): nat { if a.ts < b.ts then b.ts - a.ts else a.ts - b.ts }

  /** Whether two neighbours belong to one episode. */
  predicate Linked(a: Event, b: Event) {
    Episodic(a) && Episodic(b) && a.unit == b.unit && a.scope == b.scope && Gap(a, b) <= EPISODE_WINDOW
  }

  function Flatten(groups: seq<Group>): seq<Event> {
    if groups == [] then [] else Flatten(groups[..|groups| - 1]) + groups[|groups| - 1].events
  }

  /** A group carries the heading of its first event, is an episode when that event is of a
      service's life cycle, and is a chain of linked neighbours. */
  predicate IsGroup(g: Group) {
    && g.events != []
    && g.unit == g.events[0].unit && g.scope == g.events[0].scope && g.ts == g.events[0].ts
    && g.episode == Episodic(g.events[0])
    && forall i :: 0 < i < |g.events| ==> Linked(g.events[i - 1], g.events[i])
  }

  function LastOf(g: Group): Event
    requires g.events != []
  {
    g.events[|g.events| - 1]
  }

  /** Groups of which no two neighbours could have been one. */
  predicate Cut(groups: seq<Group>) {
    && (forall i :: 0 <= i < |groups| ==> IsGroup(groups[i]))
    && (forall i :: 0 < i < |groups| ==> !Linked(LastOf(groups[i - 1]), groups[i].events[0]))
  }

  /** The events in their order, cut into such groups. */
  predicate Grouped(groups: seq<Group>, events: seq<Event>) { Flatten(groups) == events && Cut(groups) }

  lemma CutMore(groups: seq<Group>, g: Group)
    requires Cut(groups) && IsGroup(g)
    requires groups != [] ==> !Linked(LastOf(groups[|groups| - 1]), g.events[0])
    ensures Cut(groups + [g])
  {
    var now := groups + [g];
    assert forall i :: 0 <= i < |groups| ==> now[i] == groups[i];
  }

  lemma CutLess(groups: seq<Group>, g: Group)
    requires Cut(groups + [g])
    ensures Cut(groups) && IsGroup(g)
    ensures groups != [] ==> !Linked(LastOf(groups[|groups| - 1]), g.events[0])
  {
    var was := groups + [g];
    assert forall i :: 0 <= i < |groups| ==> was[i] == groups[i];
    assert was[|groups|] == g;
  }

  /** All of an episode is about one unit in one scope. */
  lemma {:induction false} GroupIsOfOneUnit(g: Group, i: nat)
    requires IsGroup(g) && i < |g.events|
    ensures g.events[i].unit == g.unit && g.events[i].scope == g.scope
    ensures g.ts == g.events[0].ts && (g.episode <==> Episodic(g.events[i]))
    ensures !g.episode ==> |g.events| == 1
  {
    if i > 0 {
      GroupIsOfOneUnit(g, i - 1);
      assert Linked(g.events[i - 1], g.events[i]);
    } else if |g.events| > 1 {
      assert Linked(g.events[1 - 1], g.events[1]);
    }
  }

  /** The test on the heading of the last group and its last event. */
  predicate Joins(g: Group, e: Event) {
    && g.events != [] && Episodic(e) && g.episode && g.unit == e.unit && g.scope == e.scope
    && Gap(LastOf(g), e) <= EPISODE_WINDOW
  }

  function Longer(g: Group, e: Event): Group { g.(events := g.events + [e]) }

  function Single(e: Event): Group { Group(Episodic(e), e.unit, e.scope, e.ts, [e]) }

  method GroupEpisodes(events: seq<Event>) returns (groups: seq<Group>)
    ensures Grouped(groups, events)
  {
    groups := [];
    for n := 0 to |events|
      invariant Grouped(groups, events[..n])
    {
      var e, last := events[n], |groups| - 1;
      assert events[..n + 1] == events[..n] + [e];
      if groups != [] && Joins(groups[last], e) {
        JoinLast(groups, e, events[..n]);
        groups := groups[..last] + [Longer(groups[last], e)];
      } else {
        StartNew(groups, e, events[..n]);
        groups := groups + [Single(e)];
      }
    }
    assert events[..|events|] == events;
  }

  /** The heading of a group tells as much of its last event as the link needs. */
  lemma JoinsIfLinked(g: Group, e: Event)
    requires IsGroup(g)
    ensures Linked(LastOf(g), e) <==> Joins(g, e)
  {
    GroupIsOfOneUnit(g, |g.events| - 1);
  }

  lemma StartNew(groups: seq<Group>, e: Event, before: seq<Event>)
    requires Grouped(groups, before)
    requires groups != [] ==> !Joins(groups[|groups| - 1], e)
    ensures Grouped(groups + [Single(e)], before + [e])
  {
    if groups != [] { JoinsIfLinked(groups[|groups| - 1], e); }
    CutMore(groups, Single(e));
  }

  lemma JoinLast(groups: seq<Group>, e: Event, before: seq<Event>)
    requires Grouped(groups, before) && groups != [] && Joins(groups[|groups| - 1], e)
    ensures Grouped(groups[..|groups| - 1] + [Longer(groups[|groups| - 1], e)], before + [e])
  {
    var init, g := groups[..|groups| - 1], groups[|groups| - 1];
    assert groups == init + [g];
    Assoc(Flatten(init), g.events, [e]);
    CutLess(init, g);
    JoinsIfLinked(g, e);
    CutMore(init, Longer(g, e));
  }

  // ---------------------------------------------------------------- where a group starts

  /** A group starts with the `i`-th event. */
  ghost predicate StartsAt(groups: seq<Group>, i: nat) {
    exists g :: 0 <= g < |groups| && |Flatten(groups[..g])| == i
  }

  /** Two neighbours are of one episode: both are of the life cycle of the same service in the same scope,
      and at most a quarter of an hour apart. */
  predicate Together(a: Event, b: Event) {
    && a.kind in {Failure, Cleared, Restart, Autofix} && b.kind in {Failure, Cleared, Restart, Autofix}
    && a.unit != "" && a.unit == b.unit && a.scope == b.scope && -900 <= b.ts - a.ts <= 900
  }

  lemma {:induction false} FlattenGrows(groups: seq<Group>, g: nat)
    requires g <= |groups|
    ensures |Flatten(groups[..g])| <= |Flatten(groups)|
  {
    if g == |groups| {
      assert groups[..g] == groups;
    } else {
      var init := groups[..|groups| - 1];
      assert init[..g] == groups[..g];
      FlattenGrows(init, g);
    }
  }

  lemma StartsSooner(groups: seq<Group>, i: nat)
    requires groups != [] && i != |Flatten(groups[..|groups| - 1])|
    ensures StartsAt(groups, i) <==> StartsAt(groups[..|groups| - 1], i)
  {
    var n := |groups| - 1;
    forall g | 0 <= g < n ensures groups[..n][..g] == groups[..g] {}
    if g :| 0 <= g < |groups| && |Flatten(groups[..g])| == i { assert groups[..n][..g] == groups[..g]; }
    if g :| 0 <= g < n && |Flatten(groups[..n][..g])| == i { assert |Flatten(groups[..g])| == i; }
  }

  /** In any grouping, each event but the first starts a group if and only if it and the one before are not
      of one episode. */
  lemma {:induction false} StartsIffApart(groups: seq<Group>, events: seq<Event>, i: nat)
    requires Grouped(groups, events) && 0 < i < |events|
    ensures StartsAt(groups, i) <==> !Together(events[i - 1], events[i])
    decreases |groups|
  {
    var n := |groups| - 1;
    var init, last := groups[..n], groups[n];
    var m := |Flatten(init)|;
    assert groups == init + [last];
    CutLess(init, last);
    assert events == Flatten(init) + last.events;
    if i < m {
      StartsSooner(groups, i);
      StartsIffApart(init, events[..m], i);
    } else if i == m {
      assert |Flatten(groups[..n])| == i;
      LastEvent(init);
    } else {
      assert last.events[i - m - 1] == events[i - 1] && last.events[i - m] == events[i];
      forall g | 0 <= g < |groups| ensures |Flatten(groups[..g])| != i {
        if g < n {
          assert init[..g] == groups[..g];
          FlattenGrows(init, g);
        }
      }
    }
  }

  lemma LastEvent(groups: seq<Group>)
    requires Cut(groups) && Flatten(groups) != []
    ensures groups != [] && Flatten(groups)[|Flatten(groups)| - 1] == LastOf(groups[|groups| - 1])
  {
  }

  // ---------------------------------------------------------------- there is only one way

  lemma {:induction false} FlattenFirst(groups: seq<Group>)
    requires groups != []
    ensures Flatten(groups) == groups[0].events + Flatten(groups[1..])
  {
    var n := |groups| - 1;
    if n > 0 {
      FlattenFirst(groups[..n]);
      assert groups[..n][1..] == groups[1..][..n - 1];
      assert groups[0].events + (Flatten(groups[1..][..n - 1]) + groups[n].events)
          == groups[0].events + Flatten(groups[1..][..n - 1]) + groups[n].events;
    }
  }

  lemma EndOfFirst(a: seq<Group>, events: seq<Event>)
    requires Grouped(a, events) && a != [] && |a[0].events| < |events|
    ensures a[0].events != [] && !Linked(events[|a[0].events| - 1], events[|a[0].events|])
  {
    FlattenFirst(a);
    assert |a| > 1;
    FlattenFirst(a[1..]);
    assert !Linked(LastOf(a[1 - 1]), a[1].events[0]);
  }

  lemma InsideFirst(b: seq<Group>, events: seq<Event>, k: nat)
    requires Grouped(b, events) && b != [] && 0 < k < |b[0].events|
    ensures k < |events| && Linked(events[k - 1], events[k])
  {
    FlattenFirst(b);
    assert Linked(b[0].events[k - 1], b[0].events[k]);
  }

  /** A first group is at least as long as any other first group of the same events. */
  lemma FirstIsLongest(a: seq<Group>, b: seq<Group>, events: seq<Event>)
    requires Grouped(a, events) && Grouped(b, events) && a != [] && b != []
    ensures |a[0].events| >= |b[0].events|
  {
    if |a[0].events| < |b[0].events| {
      InsideFirst(b, events, |a[0].events|);
      EndOfFirst(a, events);
    }
  }

  lemma RestIsGrouped(a: seq<Group>, events: seq<Event>)
    requires Grouped(a, events) && a != []
    ensures a[0].events <= events && Grouped(a[1..], events[|a[0].events|..])
  {
    FlattenFirst(a);
    var rest := a[1..];
    forall i | 0 < i < |rest| ensures !Linked(LastOf(rest[i - 1]), rest[i].events[0]) {
      assert rest[i - 1] == a[i] && rest[i] == a[i + 1];
      assert !Linked(LastOf(a[i + 1 - 1]), a[i + 1].events[0]);
    }
  }

  /** Only one grouping keeps the events, links within groups and cannot be joined further. */
  lemma {:induction false} GroupingIsUnique(a: seq<Group>, b: seq<Group>, events: seq<Event>)
    requires Grouped(a, events) && Grouped(b, events)
    ensures a == b
    decreases |a|
  {
    if a != [] && b != [] {
      FirstIsLongest(a, b, events);
      FirstIsLongest(b, a, events);
      RestIsGrouped(a, events);
      RestIsGrouped(b, events);
      GroupingIsUnique(a[1..], b[1..], events[|a[0].events|..]);
      assert a[0] == b[0];
      assert a == [a[0]] + a[1..] && b == [b[0]] + b[1..];
    } else if a != [] {
      FlattenFirst(a);
    } else if b != [] {
      FlattenFirst(b);
    }
  }
}

/**
 Assembling a model's tool calls from the fragments of a stream, which come interleaved and
 carry the index of the call they belong to.
 */
module ToolCalls {
  import opened Sequences

  /** A fragment; a part it does not carry is empty. */
  datatype Fragment = Fragment(index: int, id: string, name: string, args: string)

  datatype Slot = Slot(id: string, name: string, args: string)

  /** The fragments of one call, in their order. */
  function Of(fs: seq<Fragment>, index: int): seq<Fragment> {
    if fs == [] then [] else (if fs[0].index == index then [fs[0]] else []) + Of(fs[1..], index)
  }

  function Names(fs: seq<Fragment>): string { if fs == [] then "" else fs[0].name + Names(fs[1..]) }

  function Args(fs: seq<Fragment>): string { if fs == [] then "" else fs[0].args + Args(fs[1..]) }

  /** The last id that any of them carries. */
  function LastId(fs: seq<Fragment>): string {
    if fs == [] then "" else if LastId(fs[1..]) != "" then LastId(fs[1..]) else fs[0].id
  }

  /** What a call's own fragments make together. */
  function Whole(fs: seq<Fragment>): Slot { Slot(LastId(fs), Names(fs), Args(fs)) }

  /** Where the first fragment of a call is. */
  function FirstAt(fs: seq<Fragment>, index: int): nat {
    if fs == [] || fs[0].index == index then 0 else 1 + FirstAt(fs[1..], index)
  }

  /** Each call is the whole of its own fragments. */
  ghost predicate Assembled(slots: map<int, Slot>, fs: seq<Fragment>) {
    && (forall i :: i in slots <==> Of(fs, i) != [])
    && (forall i :: i in slots ==> slots[i] == Whole(Of(fs, i)))
  }

  ghost predicate Lists(order: seq<int>, fs: seq<Fragment>) { forall i :: i in order <==> Of(fs, i) != [] }

  ghost predicate ByFirst(order: seq<int>, fs: seq<Fragment>) {
    forall a, b :: 0 <= a < b < |order| ==> FirstAt(fs, order[a]) < FirstAt(fs, order[b])
  }

  /** The calls so far; `order` is the order in which they were first seen. */
  class Calls {
    var slots: map<int, Slot>
    var order: seq<int>
    ghost var seen: seq<Fragment>

    constructor ()
      ensures Valid() && seen == []
    {
      slots, order, seen := map[], [], [];
    }

    /** Every call seen is listed once, in the order of the first fragments. */
    ghost predicate Valid()
      reads this
    {
      Assembled(slots, seen) && Lists(order, seen) && ByFirst(order, seen)
    }

    method Accumulate(f: Fragment)
      requires Valid()
      modifies this
      ensures Valid() && seen == old(seen) + [f]
    {
      var slot := Slot("", "", "");
      var listed := order;
      if f.index in slots {
        slot := slots[f.index];
      } else {
        listed := order + [f.index];
      }
      if f.id != "" { slot := slot.(id := f.id); }
      slot := slot.(name := slot.name + f.name, args := slot.args + f.args);
      OrderMore(order, seen, f);
      WholeMore(Of(seen, f.index), f);
      Assemble(slots, seen, f, slot);
      slots, order, seen := slots[f.index := slot], listed, seen + [f];
    }

    method Stream(fs: seq<Fragment>)
      requires Valid()
      modifies this
      ensures Valid() && seen == old(seen) + fs
    {
      for n := 0 to |fs|
        invariant Valid() && seen == old(seen) + fs[..n]
      {
        Accumulate(fs[n]);
        assert fs[..n + 1] == fs[..n] + [fs[n]];
      }
      assert fs[..|fs|] == fs;
    }
  }

  // ---------------------------------------------------------------- one more fragment

  lemma OfAll(fs: seq<Fragment>, f: Fragment)
    ensures forall i :: Of(fs + [f], i) == if i == f.index then Of(fs, i) + [f] else Of(fs, i)
  {
    forall i ensures Of(fs + [f], i) == if i == f.index then Of(fs, i) + [f] else Of(fs, i) {
      OfConcat(fs, [f], i);
      assert [f][1..] == [];
    }
  }

  lemma {:induction false} WholeMore(fs: seq<Fragment>, f: Fragment)
    ensures Whole(fs + [f])
         == Slot(if f.id != "" then f.id else LastId(fs), Names(fs) + f.name, Args(fs) + f.args)
  {
    if fs == [] {
      assert fs + [f] == [f] && [f][1..] == [];
      assert Names([f]) == f.name + Names([]) && Args([f]) == f.args + Args([]);
      assert LastId([]) == "" && LastId([f]) == f.id;
    } else {
      Uncons(fs, [f]);
      WholeMore(fs[1..], f);
      Assoc(fs[0].name, Names(fs[1..]), f.name);
      Assoc(fs[0].args, Args(fs[1..]), f.args);
    }
  }

  lemma {:induction false} FirstAtMore(fs: seq<Fragment>, f: Fragment, index: int)
    ensures Of(fs, index) != [] ==> FirstAt(fs + [f], index) == FirstAt(fs, index) < |fs|
    ensures Of(fs, index) == [] && f.index == index ==> FirstAt(fs + [f], index) == |fs|
  {
    if fs != [] {
      assert (fs + [f])[1..] == fs[1..] + [f];
      FirstAtMore(fs[1..], f, index);
    }
  }

  lemma Assemble(slots: map<int, Slot>, fs: seq<Fragment>, f: Fragment, slot: Slot)
    requires Assembled(slots, fs) && slot == Whole(Of(fs, f.index) + [f])
    ensures Assembled(slots[f.index := slot], fs + [f])
  {
    OfAll(fs, f);
  }

  lemma OrderMore(order: seq<int>, fs: seq<Fragment>, f: Fragment)
    requires Lists(order, fs) && ByFirst(order, fs)
    ensures Of(fs, f.index) != [] ==> Lists(order, fs + [f]) && ByFirst(order, fs + [f])
    ensures Of(fs, f.index) == [] ==> Lists(order + [f.index], fs + [f]) && ByFirst(order + [f.index], fs + [f])
  {
    forall k | 0 <= k < |order| ensures FirstAt(fs + [f], order[k]) == FirstAt(fs, order[k]) < |fs| {
      assert order[k] in order;
      FirstAtMore(fs, f, order[k]);
    }
    FirstAtMore(fs, f, f.index);
    ListsMore(order, fs, f);
  }

  lemma ListsMore(order: seq<int>, fs: seq<Fragment>, f: Fragment)
    requires Lists(order, fs)
    ensures Lists(if Of(fs, f.index) == [] then order + [f.index] else order, fs + [f])
  {
    OfAll(fs, f);
    var now := if Of(fs, f.index) == [] then order + [f.index] else order;
    forall i ensures i in now <==> Of(fs + [f], i) != [] {}
  }

  // ---------------------------------------------------------------- the interleaving does not matter

  /** One stream is a reshuffle of the other that keeps each call's own order. */
  ghost predicate SameCalls(a: seq<Fragment>, b: seq<Fragment>) { forall i :: Of(a, i) == Of(b, i) }

  /** Then the calls come out the same; only the order in which they are made can differ. */
  lemma ReshuffleSameSlots(s: map<int, Slot>, t: map<int, Slot>, a: seq<Fragment>, b: seq<Fragment>)
    requires Assembled(s, a) && Assembled(t, b) && SameCalls(a, b)
    ensures s == t
  {
    forall i ensures i in s <==> i in t { assert Of(a, i) == Of(b, i); }
    assert s.Keys == t.Keys;
    forall i | i in s ensures s[i] == t[i] { assert Of(a, i) == Of(b, i); }
  }

  /** Two fragments of different calls may change places. */
  lemma {:induction false} NeighboursSwap(a: seq<Fragment>, f: Fragment, g: Fragment, b: seq<Fragment>)
    requires f.index != g.index
    ensures SameCalls(a + [f, g] + b, a + [g, f] + b)
  {
    forall i ensures Of(a + [f, g] + b, i) == Of(a + [g, f] + b, i) {
      OfConcat(a + [f, g], b, i);
      OfConcat(a + [g, f], b, i);
      OfConcat(a, [f, g], i);
      OfConcat(a, [g, f], i);
      assert [f, g][1..] == [g] && [g, f][1..] == [f] && [f][1..] == [] && [g][1..] == [];
    }
  }

  lemma {:induction false} OfConcat(a: seq<Fragment>, b: seq<Fragment>, index: int)
    ensures Of(a + b, index) == Of(a, index) + Of(b, index)
  {
    if a == [] {
      assert a + b == b;
    } else {
      var first := if a[0].index == index then [a[0]] else [];
      Uncons(a, b);
      OfConcat(a[1..], b, index);
      Assoc(first, Of(a[1..], index), Of(b, index));
    }
  }
}

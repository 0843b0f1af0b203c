/** Counting in sequences, and the Map of lists by key that the planner and the read-back build. */
module Sequences {
  /** How many elements satisfy `p`. */
  function Count<T(!new)>(ts: seq<T>, p: T -> bool): (n: nat) {
    if ts == [] then 0 else Count(ts[..|ts| - 1], p) + if p(ts[|ts| - 1]) then 1 else 0
  }

  lemma {:induction false} CountAppend<T(!new)>(a: seq<T>, b: seq<T>, p: T -> bool)
    ensures Count(a + b, p) == Count(a, p) + Count(b, p)
  {
    if b == [] {
      assert a + b == a;
    } else {
      assert (a + b)[..|a + b| - 1] == a + b[..|b| - 1];
      CountAppend(a, b[..|b| - 1], p);
    }
  }

  lemma {:induction false} CountOne<T(!new)>(ts: seq<T>, p: T -> bool)
    ensures Count(ts, p) > 0 ==> exists t :: t in ts && p(t)
    ensures forall t :: t in ts && p(t) ==> Count(ts, p) > 0
  {
    if ts != [] {
      var rest, t := ts[..|ts| - 1], ts[|ts| - 1];
      assert ts == rest + [t];
      CountOne(rest, p);
      if Count(rest, p) > 0 {
        var u :| u in rest && p(u);
        assert u in ts;
      } else if p(t) {
        assert t in ts;
      }
    }
  }

  // ---------------------------------------------------------------- lists by key

  /** An entry of a JavaScript Map from keys to lists; the entries stand in insertion order. */
  datatype Group<K, T> = Group(key: K, items: seq<T>)

  /** `gs.get(key) ?? []`. */
  function GroupFor<K(==), T>(gs: seq<Group<K, T>>, key: K): (r: seq<T>) {
    if gs == [] then [] else if gs[0].key == key then gs[0].items else GroupFor(gs[1..], key)
  }

  /** `gs.set(key, items)`. */
  function WithGroup<K(==), T>(gs: seq<Group<K, T>>, key: K, items: seq<T>): (r: seq<Group<K, T>>) {
    if gs == [] then [Group(key, items)]
    else if gs[0].key == key then [Group(key, items)] + gs[1..]
    else [gs[0]] + WithGroup(gs[1..], key, items)
  }

  function GroupCount<K, T(!new)>(gs: seq<Group<K, T>>, p: T -> bool): (n: nat) {
    if gs == [] then 0 else Count(gs[0].items, p) + GroupCount(gs[1..], p)
  }

  /** Adding an element to its group adds it to the whole, once. */
  lemma {:induction false} WithGroupCounts<K, T(!new)>(gs: seq<Group<K, T>>, key: K, t: T, p: T -> bool)
    ensures GroupCount(WithGroup(gs, key, GroupFor(gs, key) + [t]), p) == GroupCount(gs, p) + if p(t) then 1 else 0
  {
    CountAppend(GroupFor(gs, key), [t], p);
    assert Count([t], p) == (if p(t) then 1 else 0) by {
      assert [t][..0] == [];
    }
    if gs == [] {
    } else if gs[0].key == key {
      assert ([Group(key, gs[0].items + [t])] + gs[1..])[1..] == gs[1..];
    } else {
      WithGroupCounts(gs[1..], key, t, p);
      var r := WithGroup(gs[1..], key, GroupFor(gs[1..], key) + [t]);
      assert ([gs[0]] + r)[1..] == r;
    }
  }

  lemma {:induction false} GroupCountAppend<K, T(!new)>(gs: seq<Group<K, T>>, g: Group<K, T>, p: T -> bool)
    ensures GroupCount(gs + [g], p) == GroupCount(gs, p) + Count(g.items, p)
  {
    if gs == [] {
      assert [] + [g] == [g];
    } else {
      assert (gs + [g])[1..] == gs[1..] + [g];
      GroupCountAppend(gs[1..], g, p);
    }
  }
}

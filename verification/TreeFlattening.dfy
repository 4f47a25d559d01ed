/**
 Writing a tree as a list in which nodes name their children by number, and reading it back.
 What the nodes hold does not matter here.
 */
module TreeFlattening {
  import opened Common

  datatype Tree<A> = Tree(data: A, children: seq<Tree<A>>)

  function MapTree<A, B>(f: A -> B, t: Tree<A>): Tree<B>
    decreases t, 0
  {
    Tree(f(t.data), MapAll(f, t.children))
  }

  function MapAll<A, B>(f: A -> B, ts: seq<Tree<A>>): (r: seq<Tree<B>>)
    ensures |r| == |ts|
    decreases ts, 1
  {
    if ts == [] then [] else MapAll(f, ts[..|ts| - 1]) + [MapTree(f, ts[|ts| - 1])]
  }

  datatype Flat<A> = Flat(id: nat, data: A, childIds: seq<nat>)

  function Size<A>(t: Tree<A>): (n: nat)
    ensures n > 0
    decreases t, 0
  {
    1 + SizeAll(t.children)
  }

  function SizeAll<A>(ts: seq<Tree<A>>): nat
    decreases ts, 1
  {
    if ts == [] then 0 else SizeAll(ts[..|ts| - 1]) + Size(ts[|ts| - 1])
  }

  /** The IDs of trees that are flattened one after another, the first right after `base`. */
  function ChildIds<A>(ts: seq<Tree<A>>, base: nat): (ids: seq<nat>)
    ensures |ids| == |ts|
  {
    if ts == [] then [] else
    ChildIds(ts[..|ts| - 1], base) + [base + SizeAll(ts[..|ts| - 1]) + 1]
  }

  /** The nodes of `t` in preorder, with IDs that start after `base`. */
  function Flatten<A>(t: Tree<A>, base: nat): (ns: seq<Flat<A>>)
    ensures |ns| == Size(t)
    decreases t, 0
  {
    [Flat(base + 1, t.data, ChildIds(t.children, base + 1))] + FlattenAll(t.children, base + 1)
  }

  function FlattenAll<A>(ts: seq<Tree<A>>, base: nat): (ns: seq<Flat<A>>)
    ensures |ns| == SizeAll(ts)
    decreases ts, 1
  {
    if ts == [] then [] else
    var before := FlattenAll(ts[..|ts| - 1], base);
    before + Flatten(ts[|ts| - 1], base + |before|)
  }

  // ---------------------------------------------------------------- where the parts stand

  lemma SliceLeft<T>(a: seq<T>, b: seq<T>, i: nat, j: nat)
    requires i <= j <= |a|
    ensures (a + b)[i..j] == a[i..j]
  {}

  lemma SliceRight<T>(a: seq<T>, b: seq<T>, i: nat, j: nat)
    requires i <= j <= |b|
    ensures (a + b)[|a| + i..|a| + j] == b[i..j]
  {}

  lemma {:induction false} SizeAllPrefix<A>(ts: seq<Tree<A>>, k: nat)
    requires k < |ts|
    ensures SizeAll(ts[..k]) + Size(ts[k]) <= SizeAll(ts)
    decreases |ts|
  {
    var m := |ts| - 1;
    if k < m {
      SizeAllPrefix(ts[..m], k);
      assert ts[..m][..k] == ts[..k];
    } else {
      assert ts[..m] == ts[..k];
    }
  }

  lemma {:induction false} ChildIdAt<A>(ts: seq<Tree<A>>, base: nat, k: nat)
    requires k < |ts|
    ensures ChildIds(ts, base)[k] == base + SizeAll(ts[..k]) + 1
    decreases |ts|
  {
    var init := ts[..|ts| - 1];
    if k < |init| {
      ChildIdAt(init, base, k);
      assert init[..k] == ts[..k];
    }
  }

  /** The nodes of subtree k stand together in the list, as that subtree alone would be flattened there. */
  predicate StandsAt<A(==)>(ts: seq<Tree<A>>, base: nat, k: nat)
    requires k < |ts|
  {
    var from, to := SizeAll(ts[..k]), SizeAll(ts[..k]) + Size(ts[k]);
    to <= |FlattenAll(ts, base)| && FlattenAll(ts, base)[from..to] == Flatten(ts[k], base + from)
  }

  lemma FlattenAllSnoc<A>(ts: seq<Tree<A>>, base: nat)
    requires ts != []
    ensures var init := ts[..|ts| - 1];
      FlattenAll(ts, base) == FlattenAll(init, base) + Flatten(ts[|ts| - 1], base + SizeAll(init))
  {}

  lemma LastStandsAt<A>(ts: seq<Tree<A>>, base: nat)
    requires ts != []
    ensures StandsAt(ts, base, |ts| - 1)
  {
    FlattenAllSnoc(ts, base);
    hide FlattenAll, Flatten;
    var init := ts[..|ts| - 1];
    var last := Flatten(ts[|ts| - 1], base + SizeAll(init));
    SliceRight(FlattenAll(init, base), last, 0, |last|);
    assert last[0..|last|] == last;
  }

  lemma EarlierStandsAt<A>(ts: seq<Tree<A>>, base: nat, k: nat)
    requires k < |ts| - 1 && StandsAt(ts[..|ts| - 1], base, k)
    ensures StandsAt(ts, base, k)
  {
    FlattenAllSnoc(ts, base);
    hide FlattenAll, Flatten, SizeAll, Size;
    var init := ts[..|ts| - 1];
    assert init[..k] == ts[..k] && init[k] == ts[k];
    var from := SizeAll(ts[..k]);
    SliceLeft(FlattenAll(init, base), Flatten(ts[|ts| - 1], base + SizeAll(init)), from, from + Size(ts[k]));
  }

  lemma {:induction false} FlattenAllAt<A>(ts: seq<Tree<A>>, base: nat, k: nat)
    requires k < |ts|
    ensures StandsAt(ts, base, k)
    decreases |ts|
  {
    hide StandsAt;
    if k == |ts| - 1 {
      LastStandsAt(ts, base);
    } else {
      FlattenAllAt(ts[..|ts| - 1], base, k);
      EarlierStandsAt(ts, base, k);
    }
  }

  function ChildAt<A>(t: Tree<A>, k: nat): nat
    requires k < |t.children|
  {
    1 + SizeAll(t.children[..k])
  }

  /** The nodes of a child stand together in the list, as that child alone would be flattened there. */
  lemma FlattenChild<A>(t: Tree<A>, base: nat, k: nat)
    requires k < |t.children|
    ensures ChildAt(t, k) + Size(t.children[k]) <= Size(t)
    ensures Flatten(t, base)[ChildAt(t, k)..ChildAt(t, k) + Size(t.children[k])]
        == Flatten(t.children[k], base + ChildAt(t, k))
    ensures Flatten(t, base)[0].childIds[k] == base + ChildAt(t, k) + 1
  {
    FlattenAllAt(t.children, base + 1, k);
    ChildIdAt(t.children, base + 1, k);
    var from := SizeAll(t.children[..k]);
    SliceRight([Flatten(t, base)[0]], FlattenAll(t.children, base + 1), from, from + Size(t.children[k]));
  }

  /** Node i has ID i + 1. */
  lemma {:induction false} IdsInOrder<A>(t: Tree<A>, base: nat, i: nat)
    requires i < Size(t)
    ensures Flatten(t, base)[i].id == base + i + 1
    decreases t, 0
  {
    if i > 0 { IdsInOrderAll(t.children, base + 1, i - 1); }
  }

  lemma {:induction false} IdsInOrderAll<A>(ts: seq<Tree<A>>, base: nat, i: nat)
    requires i < SizeAll(ts)
    ensures FlattenAll(ts, base)[i].id == base + i + 1
    decreases ts, 1
  {
    var m := |ts| - 1;
    var before := SizeAll(ts[..m]);
    if i < before { IdsInOrderAll(ts[..m], base, i); } else { IdsInOrder(ts[m], base + before, i - before); }
  }

  // ---------------------------------------------------------------- every node but the root has one parent

  /** All the child references of a list of nodes, one after another. */
  function References<A>(ns: seq<Flat<A>>): seq<nat> {
    if ns == [] then [] else ns[0].childIds + References(ns[1..])
  }

  lemma {:induction false} ReferencesAppend<A>(a: seq<Flat<A>>, b: seq<Flat<A>>)
    ensures References(a + b) == References(a) + References(b)
  {
    ReferencesFirst(a);
    ReferencesFirst(a + b);
    hide References;
    if a == [] {
      assert [] + b == b;
      assert [] + References(b) == References(b);
    } else {
      assert (a + b)[0] == a[0] && (a + b)[1..] == a[1..] + b;
      ReferencesAppend(a[1..], b);
      Regroup(a[0].childIds, References(a[1..]), References(b));
    }
  }

  lemma ReferencesFirst<A>(ns: seq<Flat<A>>)
    ensures References(ns) == if ns == [] then [] else ns[0].childIds + References(ns[1..])
  {}

  lemma Regroup<T>(a: seq<T>, b: seq<T>, c: seq<T>)
    ensures (a + b) + c == a + (b + c)
  {}

  function Count(s: seq<nat>, x: nat): nat {
    if s == [] then 0 else (if s[0] == x then 1 else 0) + Count(s[1..], x)
  }

  lemma {:induction false} CountAppend(a: seq<nat>, b: seq<nat>, x: nat)
    ensures Count(a + b, x) == Count(a, x) + Count(b, x)
  {
    if a == [] {
      assert [] + b == b;
    } else {
      CountAppend(a[1..], b, x);
      assert (a + b)[1..] == a[1..] + b;
    }
  }

  function Within(x: nat, base: nat, n: nat): nat { if base < x <= base + n then 1 else 0 }

  /** Within the nodes of a tree every ID but the root's is referred to once, and no other. */
  lemma {:induction false} TreeReferences<A>(t: Tree<A>, base: nat, x: nat)
    ensures Within(x, base, 1) + Count(References(Flatten(t, base)), x) == Within(x, base, Size(t))
    decreases t, 0
  {
    ForestReferences(t.children, base + 1, x);
    var ns := Flatten(t, base);
    assert ns[1..] == FlattenAll(t.children, base + 1);
    CountAppend(ns[0].childIds, References(ns[1..]), x);
  }

  lemma {:induction false} ForestReferences<A>(ts: seq<Tree<A>>, base: nat, x: nat)
    ensures Count(ChildIds(ts, base), x) + Count(References(FlattenAll(ts, base)), x) == Within(x, base, SizeAll(ts))
    decreases ts, 1
  {
    if ts != [] {
      var init, last := ts[..|ts| - 1], ts[|ts| - 1];
      var at := base + SizeAll(init);
      ForestReferences(init, base, x);
      TreeReferences(last, at, x);
      ReferencesAppend(FlattenAll(init, base), Flatten(last, at));
      CountAppend(References(FlattenAll(init, base)), References(Flatten(last, at)), x);
      CountAppend(ChildIds(init, base), [at + 1], x);
      CountOne(at + 1, x);
    }
  }

  lemma CountOne(y: nat, x: nat)
    ensures Count([y], x) == (if x == y then 1 else 0)
  {
    assert [y][1..] == [];
  }

  /**
   Every node but the root is named in exactly one place of one childIds list, the root in none, and
   nothing else is named.
   */
  lemma OneParent<A>(t: Tree<A>, i: nat)
    ensures Count(References(Flatten(t, 0)), i) == if 2 <= i <= Size(t) then 1 else 0
  {
    TreeReferences(t, 0, i);
  }

  // ---------------------------------------------------------------- and back

  /** Reads the tree under place i back out of a list, ignoring references that do not lead forward. */
  function Rebuild<A>(ns: seq<Flat<A>>, i: nat): Tree<A>
    requires i < |ns|
    decreases |ns| - i, |ns[i].childIds| + 1
  {
    Tree(ns[i].data, RebuildAll(ns, i, |ns[i].childIds|))
  }

  function RebuildAll<A>(ns: seq<Flat<A>>, i: nat, m: nat): (ts: seq<Tree<A>>)
    requires i < |ns| && m <= |ns[i].childIds|
    decreases |ns| - i, m
  {
    if m == 0 then [] else
    var id := ns[i].childIds[m - 1];
    RebuildAll(ns, i, m - 1) + (if i < id - 1 < |ns| then [Rebuild(ns, id - 1)] else [])
  }

  /** Wherever the nodes of `t` stand in a list, reading them back gives `t`. */
  lemma {:induction false} RebuildAt<A>(ns: seq<Flat<A>>, t: Tree<A>, at: nat)
    requires at + Size(t) <= |ns| && ns[at..at + Size(t)] == Flatten(t, at)
    ensures Rebuild(ns, at) == t
    decreases t, |t.children| + 1
  {
    assert ns[at] == ns[at..at + Size(t)][0];
    RebuildChildrenAt(ns, t, at, |t.children|);
    assert t.children[..|t.children|] == t.children;
  }

  lemma {:induction false} RebuildChildrenAt<A>(ns: seq<Flat<A>>, t: Tree<A>, at: nat, m: nat)
    requires at + Size(t) <= |ns| && ns[at..at + Size(t)] == Flatten(t, at) && m <= |t.children|
    ensures |ns[at].childIds| == |t.children|
    ensures RebuildAll(ns, at, m) == t.children[..m]
    decreases t, m
  {
    hide FlattenAll, SizeAll, ChildIds;
    assert ns[at] == ns[at..at + Size(t)][0];
    if m > 0 {
      var k := m - 1;
      RebuildChildrenAt(ns, t, at, k);
      FlattenChild(t, at, k);
      var from, size := ChildAt(t, k), Size(t.children[k]);
      SliceOfSlice(ns, at, Size(t), from, size);
      RebuildAt(ns, t.children[k], at + from);
    }
  }

  lemma SliceOfSlice<T>(s: seq<T>, at: nat, n: nat, from: nat, size: nat)
    requires at + n <= |s| && from + size <= n
    ensures s[at + from..at + from + size] == s[at..at + n][from..from + size]
  {
    var a, b := s[at + from..at + from + size], s[at..at + n][from..from + size];
    assert |a| == |b| && forall i | 0 <= i < size :: a[i] == b[i];
  }

  /** Flattening loses nothing. */
  lemma FlattenInvertible<A>(t: Tree<A>)
    ensures Rebuild(Flatten(t, 0), 0) == t
  {
    assert Flatten(t, 0)[0..0 + Size(t)] == Flatten(t, 0);
    RebuildAt(Flatten(t, 0), t, 0);
  }
}


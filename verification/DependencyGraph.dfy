/** The (parent, child) pairs that the sorting functions of bindings/python/topsort.py take: chains,
    cycles and the counters the algorithms knock down.  A pair may be listed several times and a
    pair may be a self-loop. */
module DependencyGraph {
  import opened Collections

  type Pairs<T> = seq<(T, T)>

  /** A walk from parent to child. */
  ghost predicate IsChain<T>(pairs: Pairs<T>, w: seq<T>) {
    w != [] && forall i :: 0 <= i < |w| - 1 ==> (w[i], w[i + 1]) in pairs
  }

  ghost predicate Loops<T>(w: seq<T>) {
    !NoDup(w)
  }

  ghost predicate HasCycle<T(!new)>(pairs: Pairs<T>) {
    exists c :: IsChain(pairs, c) && |c| > 1 && c[0] == c[|c| - 1]
  }

  /** `x` lies on a cycle or can be reached from one: some chain that ends at `x` repeats an item. */
  ghost predicate BelowCycle<T(!new)>(pairs: Pairs<T>, x: T) {
    exists w :: IsChain(pairs, w) && Loops(w) && w[|w| - 1] == x
  }

  /** Some chain of `k` edges ends at `x`. */
  ghost predicate HasChain<T(!new)>(pairs: Pairs<T>, x: T, k: nat) {
    exists w :: IsChain(pairs, w) && |w| == k + 1 && w[k] == x
  }

  ghost function Elements<T>(pairs: Pairs<T>): set<T> {
    (set e | e in pairs :: e.0) + (set e | e in pairs :: e.1)
  }

  ghost function Parents<T>(pairs: Pairs<T>): set<T> {
    set e | e in pairs :: e.0
  }

  /** How many listed pairs lead into `x` from an item outside `done`, duplicates counted. */
  ghost function Incoming<T>(pairs: Pairs<T>, done: set<T>, x: T): nat {
    if pairs == [] then 0
    else
      var e := pairs[|pairs| - 1];
      Incoming(pairs[..|pairs| - 1], done, x) + if e.1 == x && e.0 !in done then 1 else 0
  }

  /** The children of `p` in the order listed, duplicates kept. */
  ghost function ChildList<T>(pairs: Pairs<T>, p: T): seq<T> {
    if pairs == [] then []
    else
      var e := pairs[|pairs| - 1];
      ChildList(pairs[..|pairs| - 1], p) + if e.0 == p then [e.1] else []
  }

  /** Every parent of a listed item stands before it. */
  ghost predicate ParentsFirst<T>(pairs: Pairs<T>, order: seq<T>) {
    forall j, e :: 0 <= j < |order| && e in pairs && e.1 == order[j] ==> e.0 in order[..j]
  }

  lemma {:induction false} IncomingZero<T>(pairs: Pairs<T>, done: set<T>, x: T)
    ensures Incoming(pairs, done, x) == 0 <==> forall e :: e in pairs && e.1 == x ==> e.0 in done
  {
    if pairs != [] {
      var n := |pairs| - 1;
      IncomingZero(pairs[..n], done, x);
      assert pairs == pairs[..n] + [pairs[n]];
    }
  }

  /** Finishing an item takes its listed edges off the counters of its children. */
  lemma {:induction false} IncomingDrops<T>(pairs: Pairs<T>, done: set<T>, p: T, x: T)
    requires p !in done
    ensures Incoming(pairs, done, x) == Incoming(pairs, done + {p}, x) + multiset(ChildList(pairs, p))[x]
  {
    if pairs != [] {
      IncomingDrops(pairs[..|pairs| - 1], done, p, x);
    }
  }

  lemma {:induction false} ChildListElements<T>(pairs: Pairs<T>, p: T)
    ensures forall i :: 0 <= i < |ChildList(pairs, p)| ==> (p, ChildList(pairs, p)[i]) in pairs
    ensures p !in Parents(pairs) ==> ChildList(pairs, p) == []
  {
    if pairs != [] {
      var n := |pairs| - 1;
      ChildListElements(pairs[..n], p);
      assert pairs == pairs[..n] + [pairs[n]];
      assert pairs[n].0 in Parents(pairs);
    }
  }

  lemma {:induction false} SubChain<T>(pairs: Pairs<T>, w: seq<T>, i: nat, j: nat)
    requires IsChain(pairs, w) && i < j <= |w|
    ensures IsChain(pairs, w[i..j])
  {
    var v := w[i..j];
    forall m | 0 <= m < |v| - 1
      ensures (v[m], v[m + 1]) in pairs
    {
      assert v[m] == w[i + m] && v[m + 1] == w[(i + m) + 1];
    }
  }

  lemma {:induction false} LongerChain<T>(pairs: Pairs<T>, v: seq<T>, x: T)
    requires IsChain(pairs, v) && (v[|v| - 1], x) in pairs
    ensures IsChain(pairs, v + [x])
  {
    var w := v + [x];
    forall m | 0 <= m < |w| - 1
      ensures (w[m], w[m + 1]) in pairs
    {
      if m < |v| - 1 {
        assert w[m] == v[m] && w[m + 1] == v[m + 1];
      }
    }
  }

  /** Within a parents-first listing a chain climbs strictly, so it never repeats. */
  lemma {:induction false} ChainsClimb<T>(pairs: Pairs<T>, order: seq<T>, w: seq<T>, j: nat)
    requires ParentsFirst(pairs, order) && NoDup(order)
    requires IsChain(pairs, w) && j < |order| && w[|w| - 1] == order[j]
    ensures NoDup(w)
    ensures forall m :: 0 <= m < |w| ==> w[m] in order[..j + 1]
    decreases |w|
  {
    var n := |w| - 1;
    assert order[..j + 1][j] == order[j];
    if n > 0 {
      var front := w[..n];
      SubChain(pairs, w, 0, n);
      assert w[0..n] == front;
      assert (w[n - 1], w[(n - 1) + 1]) in pairs;
      var i :| 0 <= i < j && order[..j][i] == front[n - 1];
      ChainsClimb(pairs, order, front, i);
      forall m | 0 <= m < n
        ensures w[m] in order[..j + 1] && w[m] != w[n]
      {
        assert front[m] in order[..i + 1];
        var k :| 0 <= k < i + 1 && order[..i + 1][k] == w[m];
        assert order[..j + 1][k] == w[m];
      }
    }
  }

  /** Every item of `rest` has a parent in `rest`. */
  ghost predicate ParentClosed<T>(pairs: Pairs<T>, rest: set<T>) {
    forall x {:trigger ParentIn(pairs, rest, x)} :: x in rest ==> ParentIn(pairs, rest, x)
  }

  ghost predicate ParentIn<T>(pairs: Pairs<T>, rest: set<T>, x: T) {
    exists p :: p in rest && (p, x) in pairs
  }

  /** Where every item still waits for another, each has a parent that waits. */
  lemma {:induction false} WaitingParentClosed<T>(pairs: Pairs<T>, keys: set<T>, done: set<T>)
    requires Elements(pairs) <= keys && forall x :: x in keys - done ==> Incoming(pairs, done, x) != 0
    ensures ParentClosed(pairs, keys - done)
  {
    forall x | x in keys - done
      ensures ParentIn(pairs, keys - done, x)
    {
      IncomingZero(pairs, done, x);
      var e :| e in pairs && e.1 == x && e.0 !in done;
      assert e.0 in keys - done && (e.0, x) == e;
    }
  }

  lemma {:induction false} BackChain<T>(pairs: Pairs<T>, rest: set<T>, x: T, n: nat) returns (w: seq<T>)
    requires ParentClosed(pairs, rest) && x in rest
    ensures IsChain(pairs, w) && |w| == n + 1 && w[n] == x
    ensures forall i :: 0 <= i <= n ==> w[i] in rest
  {
    if n == 0 {
      w := [x];
    } else {
      assert ParentIn(pairs, rest, x);
      var p :| p in rest && (p, x) in pairs;
      w := BackChain(pairs, rest, p, n - 1);
      LongerChain(pairs, w, x);
      w := w + [x];
    }
  }

  /** Following leftover parents backwards must repeat an item sooner or later. */
  lemma {:induction false} ParentClosedBelowCycle<T(!new)>(pairs: Pairs<T>, rest: set<T>, x: T)
    requires ParentClosed(pairs, rest) && x in rest
    ensures BelowCycle(pairs, x)
  {
    var w := BackChain(pairs, rest, x, |rest|);
    if NoDup(w) {
      assert Elems(w) <= rest;
      DistinctWithin(w, rest);
    }
  }

  /** A chain that repeats an item can be stretched to any length. */
  lemma {:induction false} Stretch<T(!new)>(pairs: Pairs<T>, w: seq<T>, k: nat)
    requires IsChain(pairs, w) && Loops(w)
    ensures HasChain(pairs, w[|w| - 1], k)
    decreases k - |w|
  {
    if k < |w| {
      var v := w[|w| - 1 - k..|w|];
      SubChain(pairs, w, |w| - 1 - k, |w|);
      assert IsChain(pairs, v) && |v| == k + 1 && v[k] == w[|w| - 1];
    } else {
      var i, j :| 0 <= i < j < |w| && w[i] == w[j];
      var v := w[..j] + w[i..];
      forall m | 0 <= m < |v| - 1
        ensures (v[m], v[m + 1]) in pairs
      {
        if m < j {
          assert v[m] == w[m] && v[m + 1] == w[m + 1];
        } else {
          assert v[m] == w[m - (j - i)] && v[m + 1] == w[m - (j - i) + 1];
        }
      }
      assert v[i] == v[j];
      Stretch(pairs, v, k);
    }
  }

  /** There is a cycle exactly when some item is below one. */
  lemma {:induction false} CycleIffBelow<T(!new)>(pairs: Pairs<T>)
    ensures HasCycle(pairs) <==> exists x :: BelowCycle(pairs, x)
  {
    if HasCycle(pairs) {
      var c :| IsChain(pairs, c) && |c| > 1 && c[0] == c[|c| - 1];
      assert Loops(c);
      assert BelowCycle(pairs, c[|c| - 1]);
    }
    if x :| BelowCycle(pairs, x) {
      var w :| IsChain(pairs, w) && Loops(w) && w[|w| - 1] == x;
      var i, j :| 0 <= i < j < |w| && w[i] == w[j];
      var c := w[i..j + 1];
      SubChain(pairs, w, i, j + 1);
      assert IsChain(pairs, c) && c[0] == c[|c| - 1];
    }
  }

  lemma {:induction false} BelowCycleMentioned<T(!new)>(pairs: Pairs<T>, x: T)
    requires BelowCycle(pairs, x)
    ensures x in Elements(pairs)
  {
    var w :| IsChain(pairs, w) && Loops(w) && w[|w| - 1] == x;
    var n := |w| - 2;
    var e := (w[n], w[n + 1]);
    assert e in pairs && e.1 == x;
  }
}

/** `find_cycles` of bindings/python/topsort.py: a stack of simple paths, explored from every key
    that no earlier exploration has met. */
module FindCycles {
  import opened Collections
  import opened Rotation
  import opened CycleSpec

  /** Some yielded list is `c` up to rotation. */
  ghost predicate Covered<T>(cycles: seq<seq<T>>, c: seq<T>) {
    exists i :: 0 <= i < |cycles| && IsRotation(cycles[i], c)
  }

  /** No yielded list repeats an earlier one, even rotated. */
  ghost predicate PairwiseUnrotated<T>(cycles: seq<seq<T>>) {
    forall i, j :: 0 <= i < j < |cycles| ==> !IsRotation(cycles[i], cycles[j])
  }

  /** The children of the last item of a path; an item that is no key has none. */
  function Next<T(==)>(g: Graph<T>, p: seq<T>): seq<T>
    requires p != []
  {
    var last := p[|p| - 1];
    if last in g then g[last] else []
  }

  /** Every cycle that one of `children` closes at the end of `p` has been yielded. */
  ghost predicate Explored<T(!new)>(cycles: seq<seq<T>>, p: seq<T>, children: seq<T>) {
    forall child :: child in children && child in p ==> Covered(cycles, p[IndexOf(p, child)..])
  }

  ghost predicate HasPrefixOn<T>(paths: seq<seq<T>>, p: seq<T>) {
    exists i :: 0 <= i < |paths| && paths[i] <= p
  }

  /** Each simple path from the root is either done with or will still be reached from the stack. */
  ghost predicate Pending<T(!new)>(g: Graph<T>, root: T, paths: seq<seq<T>>, cycles: seq<seq<T>>) {
    forall p :: SimplePath(g, p) && p[0] == root ==>
      Explored(cycles, p, Next(g, p)) || HasPrefixOn(paths, p)
  }

  /** Every simple cycle that can be walked into from `a` has been yielded. */
  ghost predicate CyclesFrom<T(!new)>(g: Graph<T>, a: T, cycles: seq<seq<T>>) {
    forall c :: SimpleCycle(g, c) && Reaches(g, a, c[0]) ==> Covered(cycles, c)
  }

  ghost predicate StackOk<T>(g: Graph<T>, root: T, paths: seq<seq<T>>) {
    forall i :: 0 <= i < |paths| ==>
      SimplePath(g, paths[i]) && paths[i][0] == root
  }

  /** The one-step extensions of `p` that stay simple, in the order they are pushed. */
  ghost function Extensions<T>(p: seq<T>, children: seq<T>): seq<seq<T>> {
    if children == [] then []
    else
      var n := |children| - 1;
      Extensions(p, children[..n]) + if children[n] in p then [] else [p + [children[n]]]
  }

  /** The number of simple paths that extend `p`, itself included: the loop turns it still costs. */
  ghost function PathCount<T>(g: Graph<T>, p: seq<T>): (n: nat)
    requires p != [] && NoDup(p)
    ensures n > 0
    decreases |Universe(g) - Elems(p)|, 1, 0
  {
    1 + ChildCount(g, p, |Next(g, p)|)
  }

  ghost function ChildCount<T>(g: Graph<T>, p: seq<T>, n: nat): nat
    requires p != [] && NoDup(p) && n <= |Next(g, p)|
    decreases |Universe(g) - Elems(p)|, 0, n
  {
    if n == 0 then 0
    else
      var child := Next(g, p)[n - 1];
      ChildCount(g, p, n - 1) +
      if child in p then 0
      else
        FewerLeft(g, p, child);
        PathCount(g, p + [child])
  }

  lemma {:induction false} FewerLeft<T>(g: Graph<T>, p: seq<T>, child: T)
    requires p != [] && child in Next(g, p) && child !in p
    ensures |Universe(g) - Elems(p + [child])| < |Universe(g) - Elems(p)|
  {
    var before, after := Universe(g) - Elems(p), Universe(g) - Elems(p + [child]);
    assert child in g[p[|p| - 1]] && p[|p| - 1] in g.Keys;
    assert Elems(p + [child]) == Elems(p) + {child};
    assert child in before && child !in after && after <= before;
    SubsetSize(after, before);
  }

  ghost predicate AllDistinct<T>(paths: seq<seq<T>>) {
    forall i :: 0 <= i < |paths| ==> paths[i] != [] && NoDup(paths[i])
  }

  ghost function StackCount<T>(g: Graph<T>, paths: seq<seq<T>>): nat
    requires AllDistinct(paths)
  {
    if paths == [] then 0
    else StackCount(g, paths[..|paths| - 1]) + PathCount(g, paths[|paths| - 1])
  }

  /** Pushing the extensions of a path adds their counts, one less than the path's own. */
  lemma {:induction false} PushedCount<T>(g: Graph<T>, base: seq<seq<T>>, p: seq<T>, n: nat)
    requires AllDistinct(base) && p != [] && NoDup(p) && n <= |Next(g, p)|
    ensures AllDistinct(base + Extensions(p, Next(g, p)[..n]))
    ensures StackCount(g, base + Extensions(p, Next(g, p)[..n])) ==
            StackCount(g, base) + ChildCount(g, p, n)
  {
    hide PathCount, NoDup, Next;
    var children := Next(g, p);
    if n == 0 {
      assert base + Extensions(p, children[..0]) == base;
    } else {
      PushedCount(g, base, p, n - 1);
      assert children[..n][..n - 1] == children[..n - 1];
      var before := base + Extensions(p, children[..n - 1]);
      var after := base + Extensions(p, children[..n]);
      if children[n - 1] in p {
        assert after == before;
      } else {
        LongerDistinct(p, children[n - 1]);
        assert after == before + [p + [children[n - 1]]];
        assert after[..|after| - 1] == before;
      }
    }
  }

  lemma {:induction false} LongerDistinct<T>(p: seq<T>, child: T)
    requires NoDup(p) && child !in p
    ensures NoDup(p + [child])
  {
  }

  /** A turn of the `while paths` loop leaves less to be done. */
  lemma {:induction false} TurnShrinks<T>(g: Graph<T>, base: seq<seq<T>>, path: seq<T>)
    requires AllDistinct(base + [path])
    ensures path != [] && NoDup(path) && AllDistinct(base) && AllDistinct(base + Extensions(path, Next(g, path)))
    ensures StackCount(g, base + Extensions(path, Next(g, path))) < StackCount(g, base + [path])
  {
    hide NoDup, Next, Extensions, ChildCount;
    assert (base + [path])[|base|] == path && (base + [path])[..|base|] == base;
    assert forall i :: 0 <= i < |base| ==> (base + [path])[i] == base[i];
    assert Next(g, path)[..|Next(g, path)|] == Next(g, path);
    PushedCount(g, base, path, |Next(g, path)|);
  }

  lemma {:induction false} ExtensionAt<T>(p: seq<T>, children: seq<T>, child: T)
    requires child in children && child !in p
    ensures exists i :: 0 <= i < |Extensions(p, children)| && Extensions(p, children)[i] == p + [child]
  {
    var n := |children| - 1;
    if children[n] == child {
      assert Extensions(p, children)[|Extensions(p, children[..n])|] == p + [child];
    } else {
      ExtensionAt(p, children[..n], child);
      var i :| 0 <= i < |Extensions(p, children[..n])| && Extensions(p, children[..n])[i] == p + [child];
      assert Extensions(p, children)[i] == p + [child];
    }
  }

  lemma {:induction false} CoveredGrows<T>(cycles: seq<seq<T>>, more: seq<seq<T>>, c: seq<T>)
    requires cycles <= more && Covered(cycles, c)
    ensures Covered(more, c)
  {
    var i :| 0 <= i < |cycles| && IsRotation(cycles[i], c);
    assert more[i] == cycles[i];
  }

  lemma {:induction false} ExploredGrows<T(!new)>(cycles: seq<seq<T>>, more: seq<seq<T>>, p: seq<T>, children: seq<T>)
    requires cycles <= more && Explored(cycles, p, children)
    ensures Explored(more, p, children)
  {
    forall child | child in children && child in p
      ensures Covered(more, p[IndexOf(p, child)..])
    {
      CoveredGrows(cycles, more, p[IndexOf(p, child)..]);
    }
  }

  lemma {:induction false} CyclesFromGrows<T(!new)>(g: Graph<T>, a: T, cycles: seq<seq<T>>, more: seq<seq<T>>)
    requires cycles <= more && CyclesFrom(g, a, cycles)
    ensures CyclesFrom(g, a, more)
  {
    forall c | SimpleCycle(g, c) && Reaches(g, a, c[0])
      ensures Covered(more, c)
    {
      CoveredGrows(cycles, more, c);
    }
  }

  /** One turn of the `while paths` loop keeps `Pending`: the popped path is replaced by its
      extensions once the cycles it closes are yielded. */
  lemma {:induction false} TurnKeepsPending<T(!new)>(g: Graph<T>, root: T, base: seq<seq<T>>, path: seq<T>,
                                  cycles: seq<seq<T>>, more: seq<seq<T>>)
    requires path != [] && cycles <= more
    requires Pending(g, root, base + [path], cycles)
    requires Explored(more, path, Next(g, path))
    ensures Pending(g, root, base + Extensions(path, Next(g, path)), more)
  {
    var pushed := Extensions(path, Next(g, path));
    forall p | SimplePath(g, p) && p[0] == root
      ensures Explored(more, p, Next(g, p)) || HasPrefixOn(base + pushed, p)
    {
      if Explored(cycles, p, Next(g, p)) {
        ExploredGrows(cycles, more, p, Next(g, p));
      } else {
        PrefixMoves(g, base, path, p);
      }
    }
  }

  lemma {:induction false} PrefixMoves<T>(g: Graph<T>, base: seq<seq<T>>, path: seq<T>, p: seq<T>)
    requires path != [] && SimplePath(g, p) && HasPrefixOn(base + [path], p)
    ensures p == path || HasPrefixOn(base + Extensions(path, Next(g, path)), p)
  {
    var pushed := Extensions(path, Next(g, path));
    var i :| 0 <= i < |base + [path]| && (base + [path])[i] <= p;
    if i < |base| {
      assert (base + pushed)[i] <= p;
    } else if |p| > |path| {
      var n := |path|;
      assert Edge(g, p[n - 1], p[n - 1 + 1]);
      assert p[n - 1] == path[n - 1] && p[..n] == path;
      ExtensionAt(path, Next(g, path), p[n]);
      var k :| 0 <= k < |pushed| && pushed[k] == path + [p[n]];
      assert (base + pushed)[|base| + k] <= p;
    }
  }

  /** When nothing is pending, every simple cycle reachable from the root has been yielded. */
  lemma {:induction false} RootComplete<T(!new)>(g: Graph<T>, root: T, cycles: seq<seq<T>>)
    requires Pending(g, root, [], cycles)
    ensures CyclesFrom(g, root, cycles)
  {
    forall c | SimpleCycle(g, c) && Reaches(g, root, c[0])
      ensures Covered(cycles, c)
    {
      var w :| IsWalk(g, w) && w[0] == root && w[|w| - 1] == c[0];
      var p := ShortestEntry(g, w, c);
      var k := IndexOf(c, p[|p| - 1]);
      var r := Rotate(c, k);
      RotatedCycle(g, c, k);
      EntryCovered(g, p, r, cycles);
      var i :| 0 <= i < |cycles| && IsRotation(cycles[i], r);
      assert IsRotation(c, r);
      RotationSymmetric(c, r);
      RotationTransitive(cycles[i], r, c);
    }
  }

  lemma {:induction false} EntryCovered<T(!new)>(g: Graph<T>, p: seq<T>, r: seq<T>, cycles: seq<seq<T>>)
    requires SimplePath(g, p) && SimpleCycle(g, r) && p[|p| - 1] == r[0]
    requires forall i :: 0 <= i < |p| - 1 ==> p[i] !in r
    requires Pending(g, p[0], [], cycles)
    ensures Covered(cycles, r)
  {
    var q := p + r[1..];
    GoRound(g, p, r);
    assert q[0] == p[0];
    assert Explored(cycles, q, Next(g, q));
    assert q[|p| - 1] == r[0];
    assert r[0] in Next(g, q) && r[0] in q;
    assert IndexOf(q, r[0]) == |p| - 1;
    assert q[|p| - 1..] == r;
  }

  /** A simple path that meets a cycle only at its end can go once round it and stay simple. */
  lemma {:induction false} GoRound<T>(g: Graph<T>, p: seq<T>, r: seq<T>)
    requires SimplePath(g, p) && SimpleCycle(g, r) && p[|p| - 1] == r[0]
    requires forall i :: 0 <= i < |p| - 1 ==> p[i] !in r
    ensures SimplePath(g, p + r[1..])
    ensures (p + r[1..])[|p + r[1..]| - 1] == r[|r| - 1]
  {
    var q := p + r[1..];
    assert forall i :: |p| - 1 <= i < |q| ==> q[i] == r[i - (|p| - 1)];
    forall i | 0 <= i < |q| - 1
      ensures Edge(g, q[i], q[i + 1])
    {
      if i < |p| - 1 {
        assert Edge(g, p[i], p[i + 1]);
      } else {
        assert Edge(g, r[i - (|p| - 1)], r[i - (|p| - 1) + 1]);
      }
    }
  }

  /** Whether some earlier cycle is the new one rotated. */
  method IsDuplicate<T(==)>(cycles: seq<seq<T>>, cycle: seq<T>) returns (isDup: bool)
    requires cycle != []
    ensures isDup <==> Covered(cycles, cycle)
  {
    isDup := false;
    for i := 0 to |cycles|
      invariant !isDup
      invariant forall j :: 0 <= j < i ==> !IsRotation(cycles[j], cycle)
    {
      var rotated := IsRotated(cycles[i], cycle);
      if rotated == Answer(true) {
        isDup := true;
        return;
      }
    }
  }

  /** A child that is already on the path closes a cycle, which is yielded unless it is a rotated
      duplicate. */
  method CloseCycle<T(==)>(g: Graph<T>, path: seq<T>, child: T, cycles: seq<seq<T>>) returns (found: seq<seq<T>>)
    requires SimplePath(g, path) && child in path && Edge(g, path[|path| - 1], child)
    requires AllYieldedOk(g, cycles)
    ensures cycles <= found && AllYieldedOk(g, found)
    ensures Covered(found, path[IndexOf(path, child)..])
  {
    hide AllYieldedOk, Covered, SimpleCycle, SimplePath, Edge;
    found := cycles;
    var cycle := path[IndexOf(path, child)..];
    BackEdgeCycle(g, path, IndexOf(path, child));
    var isDup := IsDuplicate(found, cycle);
    if !isDup {
      OneMoreCycle(g, found, cycle);
      found := found + [cycle];
    }
  }

  lemma {:induction false} OneMoreCycle<T>(g: Graph<T>, cycles: seq<seq<T>>, cycle: seq<T>)
    requires AllYieldedOk(g, cycles) && SimpleCycle(g, cycle) && !Covered(cycles, cycle)
    ensures AllYieldedOk(g, cycles + [cycle]) && Covered(cycles + [cycle], cycle)
  {
    var found := cycles + [cycle];
    RotatedByNone(cycle);
    assert found[|cycles|] == cycle;
    hide IsRotation, SimpleCycle;
    assert forall i :: 0 <= i < |cycles| ==> found[i] == cycles[i];
  }

  lemma {:induction false} RotatedByNone<T>(cycle: seq<T>)
    requires cycle != []
    ensures IsRotation(cycle, cycle)
  {
    assert cycle == Rotate(cycle, 0);
  }

  /** What holds of the yielded lists at any time: simple cycles, none a rotation of another. */
  ghost predicate AllYieldedOk<T>(g: Graph<T>, cycles: seq<seq<T>>) {
    && (forall i :: 0 <= i < |cycles| ==> SimpleCycle(g, cycles[i]))
    && PairwiseUnrotated(cycles)
  }

  /** The children that are pushed, which are the ones marked as visited. */
  ghost function Marked<T>(path: seq<T>, children: seq<T>): set<T> {
    set x | x in children && x !in path
  }

  lemma {:induction false} OneMoreChild<T(!new)>(path: seq<T>, children: seq<T>, child: T, cycles: seq<seq<T>>,
      found: seq<seq<T>>)
    requires cycles <= found && Explored(cycles, path, children)
    requires child in path ==> Covered(found, path[IndexOf(path, child)..])
    ensures Explored(found, path, children + [child])
    ensures Marked(path, children + [child]) == Marked(path, children) + if child in path then {} else {child}
    ensures Extensions(path, children + [child]) ==
            Extensions(path, children) + if child in path then [] else [path + [child]]
  {
    ExploredGrows(cycles, found, path, children);
    var more := children + [child];
    assert more[..|more| - 1] == children;
    assert forall x :: x in more <==> x in children || x == child;
  }

  lemma {:induction false} NoChildren<T(!new)>(path: seq<T>, cycles: seq<seq<T>>)
    ensures Explored(cycles, path, []) && Extensions(path, []) == [] && Marked(path, []) == {}
  {
  }

  /** The body of the `while paths` loop: expand one popped path. */
  method Expand<T(==,!new)>(g: Graph<T>, path: seq<T>, base: seq<seq<T>>, cycles: seq<seq<T>>, visited: set<T>)
    returns (paths: seq<seq<T>>, found: seq<seq<T>>, seen: set<T>)
    requires SimplePath(g, path) && AllYieldedOk(g, cycles)
    ensures paths == base + Extensions(path, Next(g, path))
    ensures cycles <= found && AllYieldedOk(g, found)
    ensures Explored(found, path, Next(g, path))
    ensures seen == visited + Marked(path, Next(g, path))
  {
    var children := Next(g, path);
    NoChildren(path, cycles);
    hide AllYieldedOk, Explored, Covered, Extensions, Marked, SimplePath;
    paths, found, seen := base, cycles, visited;
    assert children[..0] == [];
    for n := 0 to |children|
      invariant paths == base + Extensions(path, children[..n])
      invariant cycles <= found && AllYieldedOk(g, found)
      invariant Explored(found, path, children[..n])
      invariant seen == visited + Marked(path, children[..n])
    {
      var child := children[n];
      ghost var before := found;
      if child in path {
        found := CloseCycle(g, path, child, found);
      } else {
        paths := paths + [path + [child]];
        seen := seen + {child};
      }
      OneMoreChild(path, children[..n], child, before, found);
      assert children[..n + 1] == children[..n] + [child];
    }
    assert children[..|children|] == children;
  }

  /** Yields each simple cycle of the graph exactly once up to rotation, whatever the order in
      which the dictionary is iterated. */
  method FindCycles<T(==,!new)>(g: Graph<T>, order: seq<T>) returns (cycles: seq<seq<T>>)
    requires Elems(order) == g.Keys && NoDup(order)
    ensures AllYieldedOk(g, cycles)
    ensures forall c :: SimpleCycle(g, c) ==> Covered(cycles, c)
  {
    hide Covered, SimpleCycle, Reaches;
    cycles := [];
    var visited: set<T> := {};
    for k := 0 to |order|
      invariant AllYieldedOk(g, cycles)
      invariant forall v :: v in visited ==> exists j :: 0 <= j < k && Reaches(g, order[j], v)
      invariant forall j :: 0 <= j < k ==> CyclesFrom(g, order[j], cycles)
    {
      if order[k] in visited {
        ghost var j :| 0 <= j < k && Reaches(g, order[j], order[k]);
        PrunedRoot(g, order[j], order[k], cycles);
        continue;
      }
      ghost var earlier := cycles;
      cycles, visited := ExploreRoot(g, order[k], cycles, visited);
      forall j | 0 <= j < k
        ensures CyclesFrom(g, order[j], cycles)
      {
        CyclesFromGrows(g, order[j], earlier, cycles);
      }
    }
    forall c | SimpleCycle(g, c)
      ensures Covered(cycles, c)
    {
      var j := KeyIndex(g, order, c);
    }
  }

  lemma {:induction false} KeyIndex<T(!new)>(g: Graph<T>, order: seq<T>, c: seq<T>) returns (j: nat)
    requires Elems(order) == g.Keys && SimpleCycle(g, c)
    ensures j < |order| && c != [] && order[j] == c[0] && Reaches(g, order[j], c[0])
  {
    assert Edge(g, c[0], if |c| == 1 then c[0] else c[1]);
    assert c[0] in Elems(order);
    j := IndexOf(order, c[0]);
    assert IsWalk(g, [c[0]]);
  }

  /** Exactly one yielded list stands for each simple cycle. */
  lemma {:induction false} YieldedOnce<T(!new)>(g: Graph<T>, cycles: seq<seq<T>>, c: seq<T>, i: nat, j: nat)
    requires AllYieldedOk(g, cycles) && i < |cycles| && j < |cycles|
    requires IsRotation(cycles[i], c) && IsRotation(cycles[j], c)
    ensures i == j
  {
    RotationSymmetric(cycles[i], c);
    RotationSymmetric(cycles[j], c);
    RotationTransitive(cycles[i], c, cycles[j]);
    RotationTransitive(cycles[j], c, cycles[i]);
  }

  /** Skipping a visited key loses nothing: what it reaches, the root that met it reaches too. */
  lemma {:induction false} PrunedRoot<T(!new)>(g: Graph<T>, root: T, skipped: T, cycles: seq<seq<T>>)
    requires CyclesFrom(g, root, cycles) && Reaches(g, root, skipped)
    ensures CyclesFrom(g, skipped, cycles)
  {
    forall c | SimpleCycle(g, c) && Reaches(g, skipped, c[0])
      ensures Covered(cycles, c)
    {
      ReachesTransitive(g, root, skipped, c[0]);
    }
  }

  /** The `while paths` loop for one root. */
  method ExploreRoot<T(==,!new)>(g: Graph<T>, root: T, cycles: seq<seq<T>>, visited: set<T>)
    returns (found: seq<seq<T>>, seen: set<T>)
    requires AllYieldedOk(g, cycles)
    ensures cycles <= found && AllYieldedOk(g, found)
    ensures CyclesFrom(g, root, found)
    ensures visited <= seen && forall v :: v in seen - visited ==> Reaches(g, root, v)
  {
    hide AllYieldedOk, Pending, StackOk, Explored, CyclesFrom, Extensions, Marked, StackCount, AllDistinct, Next,
        SimplePath;
    found, seen := cycles, visited;
    var paths := [[root]];
    StackBegins(g, root, cycles);
    while paths != []
      invariant StackOk(g, root, paths) && AllDistinct(paths)
      invariant Pending(g, root, paths, found)
      invariant cycles <= found && AllYieldedOk(g, found)
      invariant visited <= seen && forall v :: v in seen - visited ==> Reaches(g, root, v)
      decreases StackCount(g, paths)
    {
      var path := paths[|paths| - 1];
      var base := paths[..|paths| - 1];
      assert paths == base + [path];
      StackTurns(g, root, base, path);
      TurnShrinks(g, base, path);
      ghost var before := found;
      paths, found, seen := Expand(g, path, base, found, seen);
      TurnKeepsPending(g, root, base, path, before, found);
    }
    RootComplete(g, root, found);
  }

  lemma {:induction false} StackBegins<T(!new)>(g: Graph<T>, root: T, cycles: seq<seq<T>>)
    ensures StackOk(g, root, [[root]]) && AllDistinct([[root]]) && Pending(g, root, [[root]], cycles)
  {
    hide Explored, Next;
    forall p | SimplePath(g, p) && p[0] == root
      ensures HasPrefixOn([[root]], p)
    {
      assert [[root]][0] <= p;
    }
  }

  /** What is pushed for a path of the stack, and what is marked. */
  lemma {:induction false} StackTurns<T(!new)>(g: Graph<T>, root: T, base: seq<seq<T>>, path: seq<T>)
    requires StackOk(g, root, base + [path])
    ensures SimplePath(g, path) && StackOk(g, root, base + Extensions(path, Next(g, path)))
    ensures AllDistinct(base + Extensions(path, Next(g, path)))
    ensures forall v :: v in Marked(path, Next(g, path)) ==> Reaches(g, root, v)
  {
    hide Extensions, Reaches;
    var pushed := Extensions(path, Next(g, path));
    assert (base + [path])[|base|] == path;
    assert forall i :: 0 <= i < |base| ==> (base + [path])[i] == base[i];
    ExtensionsOk(g, path, Next(g, path));
    forall i | 0 <= i < |base + pushed|
      ensures SimplePath(g, (base + pushed)[i]) && (base + pushed)[i][0] == root
    {
      if i >= |base| {
        assert (base + pushed)[i] == pushed[i - |base|];
      }
    }
  }

  lemma {:induction false} ExtensionsOk<T(!new)>(g: Graph<T>, p: seq<T>, children: seq<T>)
    requires SimplePath(g, p) && forall i :: 0 <= i < |children| ==> Edge(g, p[|p| - 1], children[i])
    ensures StackOk(g, p[0], Extensions(p, children))
    ensures forall c :: c in children && c !in p ==> Reaches(g, p[0], c)
  {
    if children != [] {
      var n := |children| - 1;
      ExtensionsOk(g, p, children[..n]);
      if children[n] !in p {
        var q := p + [children[n]];
        assert IsWalk(g, q) && q[0] == p[0] && q[|q| - 1] == children[n];
      }
    }
  }
}

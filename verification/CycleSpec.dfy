/** Walks, simple paths and simple cycles of a `parent -> children` dictionary. */
module CycleSpec {
  import opened Collections
  import opened Rotation

  type Graph<T> = map<T, seq<T>>

  ghost predicate Edge<T>(g: Graph<T>, a: T, b: T) {
    a in g && b in g[a]
  }

  ghost predicate IsWalk<T>(g: Graph<T>, p: seq<T>) {
    p != [] && forall i :: 0 <= i < |p| - 1 ==> Edge(g, p[i], p[i + 1])
  }

  ghost predicate SimplePath<T>(g: Graph<T>, p: seq<T>) {
    IsWalk(g, p) && NoDup(p)
  }

  /** A simple path whose last item is a parent of its first. */
  ghost predicate SimpleCycle<T>(g: Graph<T>, c: seq<T>) {
    SimplePath(g, c) && Edge(g, c[|c| - 1], c[0])
  }

  ghost predicate Reaches<T(!new)>(g: Graph<T>, a: T, b: T) {
    exists p :: IsWalk(g, p) && p[0] == a && p[|p| - 1] == b
  }

  /** Every item the dictionary mentions, as key or as child. */
  ghost function Universe<T>(g: Graph<T>): set<T> {
    g.Keys + set x, k | k in g.Keys && x in g[k] :: x
  }

  lemma {:induction false} ReachesTransitive<T(!new)>(g: Graph<T>, a: T, b: T, c: T)
    requires Reaches(g, a, b) && Reaches(g, b, c)
    ensures Reaches(g, a, c)
  {
    var p :| IsWalk(g, p) && p[0] == a && p[|p| - 1] == b;
    var q :| IsWalk(g, q) && q[0] == b && q[|q| - 1] == c;
    var r := p + q[1..];
    forall i | 0 <= i < |r| - 1
      ensures Edge(g, r[i], r[i + 1])
    {
      if i < |p| - 1 {
        assert Edge(g, p[i], p[i + 1]);
      } else {
        assert r[i] == q[i - (|p| - 1)];
        assert Edge(g, q[i - (|p| - 1)], q[i - (|p| - 1) + 1]);
      }
    }
    assert IsWalk(g, r) && r[0] == a && r[|r| - 1] == c;
  }

  /** Any walk from `a` into the cycle `c` can be cut down to a simple path that meets `c` only at
      its last item. */
  lemma {:induction false} ShortestEntry<T>(g: Graph<T>, w: seq<T>, c: seq<T>) returns (p: seq<T>)
    requires IsWalk(g, w) && w[|w| - 1] in c
    ensures SimplePath(g, p) && p[0] == w[0] && p[|p| - 1] in c
    ensures forall i :: 0 <= i < |p| - 1 ==> p[i] !in c
    decreases |w|
  {
    if i :| 0 <= i < |w| - 1 && w[i] in c {
      p := ShortestEntry(g, w[..i + 1], c);
    } else if i, j :| 0 <= i < j < |w| && w[i] == w[j] {
      var cut := w[..i] + w[j..];
      forall k | 0 <= k < |cut| - 1
        ensures Edge(g, cut[k], cut[k + 1])
      {
        if k < i {
          assert cut[k] == w[k] && cut[k + 1] == w[k + 1];
        } else {
          assert cut[k] == w[k + (j - i)] && cut[k + 1] == w[k + (j - i) + 1];
        }
      }
      p := ShortestEntry(g, cut, c);
    } else {
      p := w;
    }
  }

  /** Reading a simple cycle from another of its items gives a simple cycle. */
  lemma {:induction false} RotatedCycle<T>(g: Graph<T>, c: seq<T>, k: nat)
    requires SimpleCycle(g, c) && k < |c|
    ensures SimpleCycle(g, Rotate(c, k))
  {
    var r := Rotate(c, k);
    forall i | 0 <= i < |r| - 1
      ensures Edge(g, r[i], r[i + 1])
    {
      if i == |c| - k - 1 {
        assert r[i] == c[|c| - 1] && r[i + 1] == c[0];
      } else if i < |c| - k - 1 {
        assert r[i] == c[k + i] && r[i + 1] == c[k + i + 1];
      } else {
        assert r[i] == c[i - (|c| - k)] && r[i + 1] == c[i - (|c| - k) + 1];
      }
    }
    if k > 0 {
      assert r[|r| - 1] == c[k - 1] && r[0] == c[k];
    } else {
      assert r == c;
    }
  }

  /** The tail of a simple path from the item its last item points back to is a simple cycle. */
  lemma {:induction false} BackEdgeCycle<T>(g: Graph<T>, p: seq<T>, i: nat)
    requires SimplePath(g, p) && i < |p| && Edge(g, p[|p| - 1], p[i])
    ensures SimpleCycle(g, p[i..])
  {
    var c := p[i..];
    forall j | 0 <= j < |c| - 1
      ensures Edge(g, c[j], c[j + 1])
    {
      assert c[j] == p[i + j] && c[j + 1] == p[i + j + 1];
    }
  }
}

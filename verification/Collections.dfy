/** Sequences read as lists of distinct items, and the finite-universe bound on their length. */
module Collections {

  /** No item occurs twice. */
  ghost predicate NoDup<T>(s: seq<T>) {
    forall i, j :: 0 <= i < j < |s| ==> s[i] != s[j]
  }

  /** The items of a list. */
  ghost function Elems<T>(s: seq<T>): set<T> {
    set x | x in s
  }

  lemma {:induction false} ElemsOneMore<T>(s: seq<T>, x: T)
    ensures Elems(s + [x]) == Elems(s) + {x}
  {
  }

  lemma {:induction false} DistinctSize<T>(s: seq<T>)
    requires NoDup(s)
    ensures |Elems(s)| == |s|
  {
    if s == [] {
    } else {
      var front, last := s[..|s| - 1], s[|s| - 1];
      DistinctSize(front);
      assert last !in Elems(front);
      assert s == front + [last];
      assert Elems(s) == Elems(front) + {last};
    }
  }

  lemma {:induction false} SubsetSize<T>(a: set<T>, b: set<T>)
    requires a <= b
    ensures |a| <= |b|
    ensures |a| == |b| ==> a == b
  {
    assert b == a + (b - a);
  }

  /** A list of distinct items drawn from a finite set is no longer than the set is large. */
  lemma {:induction false} DistinctWithin<T>(s: seq<T>, u: set<T>)
    requires NoDup(s) && Elems(s) <= u
    ensures |s| <= |u|
  {
    DistinctSize(s);
    SubsetSize(Elems(s), u);
  }

  /** The position of the first occurrence, as Python's `list.index` finds it. */
  function IndexOf<T(==)>(s: seq<T>, x: T): (i: nat)
    requires x in s
    ensures i < |s| && s[i] == x && forall j :: 0 <= j < i ==> s[j] != x
  {
    if s[0] == x then 0 else 1 + IndexOf(s[1..], x)
  }
}

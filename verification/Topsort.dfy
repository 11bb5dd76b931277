/** `topsort` of bindings/python/topsort.py: count the parents, then knock the counts down while the
    answer list grows under its own loop. */
module Topsort {
  import opened Collections
  import opened DependencyGraph

  datatype SortResult<T> =
    | Sorted(order: seq<T>)
    | CycleError(answer: seq<T>, numParents: map<T, int>, children: map<T, seq<T>>)

  /** The two dictionaries once the items of `done` have been dealt with and deleted: `keys` are the
      items, `parents` the keys the children dictionary started with. */
  ghost predicate Tables<T>(pairs: Pairs<T>, keys: set<T>, parents: set<T>, done: set<T>,
                            numParents: map<T, int>, children: map<T, seq<T>>) {
    && numParents.Keys == keys - done
    && (forall x :: x in numParents ==> numParents[x] == Incoming(pairs, done, x))
    && children.Keys == parents - done
    && (forall p :: p in children ==> children[p] == ChildList(pairs, p))
  }

  /** What the children dictionary holds for an item, and what is left of it without the item. */
  lemma {:induction false} ChildrenTaken<T>(pairs: Pairs<T>, keys: set<T>, parents: set<T>, done: set<T>, parent: T,
                                            numParents: map<T, int>, children: map<T, seq<T>>)
    requires Parents(pairs) <= parents && Tables(pairs, keys, parents, done, numParents, children) && parent !in done
    ensures ChildList(pairs, parent) == if parent in children then children[parent] else []
    ensures (children - {parent}).Keys == parents - (done + {parent})
    ensures forall p :: p in children - {parent} ==> (children - {parent})[p] == ChildList(pairs, p)
    ensures parent !in children ==> children - {parent} == children
  {
    hide Incoming, ChildList;
    ChildListElements(pairs, parent);
  }

  /** What is left of the count of `x` after `done` and the first `m` children of `p`. */
  ghost function Left<T>(pairs: Pairs<T>, done: set<T>, p: T, m: nat, x: T): int
    requires m <= |ChildList(pairs, p)|
  {
    Incoming(pairs, done, x) - multiset(ChildList(pairs, p)[..m])[x]
  }

  lemma {:induction false} LeftStep<T>(pairs: Pairs<T>, done: set<T>, p: T, m: nat, x: T)
    requires m < |ChildList(pairs, p)| && p !in done
    ensures Left(pairs, done, p, m + 1, x) ==
            Left(pairs, done, p, m, x) - if x == ChildList(pairs, p)[m] then 1 else 0
    ensures Left(pairs, done, p, m, ChildList(pairs, p)[m]) > 0
  {
    var cs := ChildList(pairs, p);
    assert cs[..m + 1] == cs[..m] + [cs[m]];
    assert cs == cs[..m] + [cs[m]] + cs[m + 1..];
    IncomingDrops(pairs, done, p, cs[m]);
  }

  lemma {:induction false} LeftEnds<T>(pairs: Pairs<T>, done: set<T>, p: T, x: T)
    requires p !in done
    ensures Left(pairs, done, p, 0, x) == Incoming(pairs, done, x)
    ensures Left(pairs, done, p, |ChildList(pairs, p)|, x) == Incoming(pairs, done + {p}, x)
  {
    var cs := ChildList(pairs, p);
    assert cs[..|cs|] == cs;
    IncomingDrops(pairs, done, p, x);
  }

  /** Counting one more pair `e`. */
  lemma {:induction false} OneMorePair<T(!new)>(pairs: Pairs<T>, e: (T, T), numParents: map<T, int>, children: map<T,
      seq<T>>)
    requires Tables(pairs, Elements(pairs), Parents(pairs), {}, numParents, children)
    ensures Elements(pairs + [e]) == Elements(pairs) + {e.0, e.1}
    ensures Parents(pairs + [e]) == Parents(pairs) + {e.0}
    ensures forall x :: Incoming(pairs + [e], {}, x) == Incoming(pairs, {}, x) + if x == e.1 then 1 else 0
    ensures forall p :: ChildList(pairs + [e], p) == ChildList(pairs, p) + if p == e.0 then [e.1] else []
    ensures forall x :: x in [e.0, e.1] && x !in numParents ==> Incoming(pairs, {}, x) == 0
    ensures e.0 !in children ==> ChildList(pairs, e.0) == []
  {
    var after := pairs + [e];
    assert after[|pairs|] == e && after[..|pairs|] == pairs;
    assert forall f :: f in after <==> f in pairs || f == e;
    IncomingZero(pairs, {}, e.0);
    IncomingZero(pairs, {}, e.1);
    ChildListElements(pairs, e.0);
  }

  /** The body of the counting loop. */
  method CountPair<T(==,!new)>(ghost pairs: Pairs<T>, e: (T, T), numParents: map<T, int>, children: map<T, seq<T>>)
    returns (numParents': map<T, int>, children': map<T, seq<T>>)
    requires Tables(pairs, Elements(pairs), Parents(pairs), {}, numParents, children)
    ensures Tables(pairs + [e], Elements(pairs + [e]), Parents(pairs + [e]), {}, numParents', children')
  {
    var (parent, child) := e;
    OneMorePair(pairs, e, numParents, children);
    numParents', children' := numParents, children;
    if parent !in numParents' {
      numParents' := numParents'[parent := 0];
    }
    if child !in numParents' {
      numParents' := numParents'[child := 0];
    }
    numParents' := numParents'[child := numParents'[child] + 1];
    if parent !in children' {
      children' := children'[parent := []];
    }
    children' := children'[parent := children'[parent] + [child]];
  }

  /** The counting loop: duplicates of a pair are counted as often as they are listed. */
  method CountParents<T(==,!new)>(pairs: Pairs<T>) returns (numParents: map<T, int>, children: map<T, seq<T>>)
    ensures Tables(pairs, Elements(pairs), Parents(pairs), {}, numParents, children)
  {
    numParents, children := map[], map[];
    for n := 0 to |pairs|
      invariant Tables(pairs[..n], Elements(pairs[..n]), Parents(pairs[..n]), {}, numParents, children)
    {
      numParents, children := CountPair(pairs[..n], pairs[n], numParents, children);
      assert pairs[..n + 1] == pairs[..n] + [pairs[n]];
    }
    assert pairs[..|pairs|] == pairs;
  }

  /** The items whose count is zero, in whatever order the dictionary is iterated. */
  method ZeroItems<T(==)>(numParents: map<T, int>) returns (zeros: seq<T>)
    ensures NoDup(zeros)
    ensures forall x :: x in zeros <==> x in numParents && numParents[x] == 0
  {
    zeros := [];
    var rest := numParents.Keys;
    while rest != {}
      invariant rest <= numParents.Keys
      invariant NoDup(zeros)
      invariant forall x :: x in zeros <==> x in numParents && x !in rest && numParents[x] == 0
      decreases rest
    {
      var x :| x in rest;
      rest := rest - {x};
      if numParents[x] == 0 {
        zeros := zeros + [x];
      }
    }
  }

  /** The answer list while `done` of it has been dealt with: it holds exactly the items with nothing
      left to wait for. */
  ghost predicate Ready<T(!new)>(pairs: Pairs<T>, keys: set<T>, done: set<T>, answer: seq<T>) {
    && NoDup(answer)
    && ParentsFirst(pairs, answer)
    && (forall x :: x in answer <==> x in keys && Incoming(pairs, done, x) == 0)
  }

  /** Half-way through the children of `parent`: `m` of them have been counted down. */
  ghost predicate Knocking<T(!new)>(pairs: Pairs<T>, keys: set<T>, done: set<T>, parent: T, m: nat,
                                    answer: seq<T>, numParents: map<T, int>)
    requires m <= |ChildList(pairs, parent)|
  {
    && numParents.Keys == keys - done - {parent}
    && (forall x :: x in numParents ==> numParents[x] == Left(pairs, done, parent, m, x))
    && NoDup(answer)
    && (forall x :: x in answer <==> x in keys && Left(pairs, done, parent, m, x) == 0)
  }

  lemma {:induction false} KnockingStarts<T(!new)>(pairs: Pairs<T>, keys: set<T>, done: set<T>, parent: T,
      answer: seq<T>,
                                numParents: map<T, int>)
    requires parent !in done && Ready(pairs, keys, done, answer)
    requires numParents.Keys == keys - done
    requires forall x :: x in numParents ==> numParents[x] == Incoming(pairs, done, x)
    ensures Knocking(pairs, keys, done, parent, 0, answer, numParents - {parent})
  {
    forall x
      ensures Left(pairs, done, parent, 0, x) == Incoming(pairs, done, x)
    {
      LeftEnds(pairs, done, parent, x);
    }
  }

  lemma {:induction false} KnockingEnds<T(!new)>(pairs: Pairs<T>, keys: set<T>, done: set<T>, parent: T, answer: seq<T>,
                              numParents: map<T, int>)
    requires parent !in done
    requires Knocking(pairs, keys, done, parent, |ChildList(pairs, parent)|, answer, numParents)
    ensures numParents.Keys == keys - (done + {parent})
    ensures forall x :: x in numParents ==> numParents[x] == Incoming(pairs, done + {parent}, x)
    ensures NoDup(answer) && forall x :: x in answer <==> x in keys && Incoming(pairs, done + {parent}, x) == 0
  {
    forall x
      ensures Left(pairs, done, parent, |ChildList(pairs, parent)|, x) == Incoming(pairs, done + {parent}, x)
    {
      LeftEnds(pairs, done, parent, x);
    }
  }

  /** Counting down one child: it is still in the dictionary, because its count was not zero yet. */
  lemma {:induction false} KnockingStep<T(!new)>(pairs: Pairs<T>, keys: set<T>, done: set<T>, parent: T, m: nat,
                              answer: seq<T>, numParents: map<T, int>)
    requires m < |ChildList(pairs, parent)| && parent !in done && Elements(pairs) <= keys
    requires Knocking(pairs, keys, done, parent, m, answer, numParents)
    requires parent in answer && forall x :: x in done ==> x in answer
    ensures var child := ChildList(pairs, parent)[m];
      && child in numParents && numParents[child] > 0
      && var counted := numParents[child := numParents[child] - 1];
      Knocking(pairs, keys, done, parent, m + 1, if counted[child] == 0 then answer + [child] else answer, counted)
  {
    var child := ChildList(pairs, parent)[m];
    ChildListElements(pairs, parent);
    assert (parent, child) in pairs;
    assert child in keys;
    forall x
      ensures Left(pairs, done, parent, m + 1, x) == Left(pairs, done, parent, m, x) - if x == child then 1 else 0
    {
      LeftStep(pairs, done, parent, m, x);
    }
    LeftStep(pairs, done, parent, m, child);
    assert child !in answer;
  }

  /** Deals with one item of the answer: deletes it, and counts down its children, each of which joins
      the answer when nothing is left for it to wait for. */
  method KnockDown<T(==,!new)>(ghost pairs: Pairs<T>, ghost keys: set<T>, ghost parents: set<T>, ghost done: set<T>,
                               parent: T, answer: seq<T>, numParents: map<T, int>, children: map<T, seq<T>>)
    returns (answer': seq<T>, numParents': map<T, int>, children': map<T, seq<T>>)
    requires Elements(pairs) <= keys && Parents(pairs) <= parents
    requires Tables(pairs, keys, parents, done, numParents, children)
    requires Ready(pairs, keys, done, answer)
    requires parent !in done && parent in answer && forall x :: x in done ==> x in answer
    ensures answer <= answer' && NoDup(answer')
    ensures Tables(pairs, keys, parents, done + {parent}, numParents', children')
    ensures forall x :: x in answer' <==> x in keys && Incoming(pairs, done + {parent}, x) == 0
  {
    ChildrenTaken(pairs, keys, parents, done, parent, numParents, children);
    answer', numParents', children' := answer, numParents - {parent}, children;
    KnockingStarts(pairs, keys, done, parent, answer, numParents);
    hide Incoming, ChildList, Ready, Knocking, ParentsFirst;
    if parent in children {
      for m := 0 to |children[parent]|
        invariant answer <= answer'
        invariant Knocking(pairs, keys, done, parent, m, answer', numParents')
      {
        var child := children[parent][m];
        KnockingStep(pairs, keys, done, parent, m, answer', numParents');
        numParents' := numParents'[child := numParents'[child] - 1];
        if numParents'[child] == 0 {
          answer' := answer' + [child];
        }
      }
      children' := children' - {parent};
    }
    KnockingEnds(pairs, keys, done, parent, answer', numParents');
  }

  lemma {:induction false} StaysParentsFirst<T>(pairs: Pairs<T>, answer: seq<T>, answer': seq<T>, i: nat)
    requires ParentsFirst(pairs, answer) && answer <= answer' && i <= |answer|
    requires forall x :: x in answer' ==> Incoming(pairs, Elems(answer'[..i]), x) == 0
    ensures ParentsFirst(pairs, answer')
  {
    forall j, e | 0 <= j < |answer'| && e in pairs && e.1 == answer'[j]
      ensures e.0 in answer'[..j]
    {
      if j < |answer| {
        assert answer'[..j] == answer[..j];
      } else {
        IncomingZero(pairs, Elems(answer'[..i]), answer'[j]);
        assert e.0 in answer'[..i];
        assert answer'[..i] <= answer'[..j];
      }
    }
  }

  lemma {:induction false} TakeOneMore<T>(before: seq<T>, after: seq<T>, i: nat)
    requires i < |before| && before <= after
    ensures Elems(after[..i + 1]) == Elems(before[..i]) + {before[i]}
  {
    assert after[..i + 1] == before[..i] + [before[i]];
  }

  /** The loop over the answer, which grows inside it. */
  method Drain<T(==,!new)>(ghost pairs: Pairs<T>, ghost keys: set<T>, ghost parents: set<T>, zeros: seq<T>,
                           numParents: map<T, int>, children: map<T, seq<T>>)
    returns (answer: seq<T>, numParents': map<T, int>, children': map<T, seq<T>>)
    requires Elements(pairs) <= keys && Parents(pairs) <= parents
    requires Tables(pairs, keys, parents, {}, numParents, children)
    requires Ready(pairs, keys, {}, zeros)
    ensures Tables(pairs, keys, parents, Elems(answer), numParents', children')
    ensures Ready(pairs, keys, Elems(answer), answer)
  {
    answer, numParents', children' := zeros, numParents, children;
    var i := 0;
    assert Elems(answer[..0]) == {};
    while i < |answer|
      invariant i <= |answer|
      invariant Tables(pairs, keys, parents, Elems(answer[..i]), numParents', children')
      invariant Ready(pairs, keys, Elems(answer[..i]), answer)
      decreases |keys| - i
    {
      ghost var before := answer;
      DistinctWithin(answer, keys);
      answer, numParents', children' :=
        KnockDown(pairs, keys, parents, Elems(answer[..i]), answer[i], answer, numParents', children');
      TakeOneMore(before, answer, i);
      i := i + 1;
      StaysParentsFirst(pairs, before, answer, i);
    }
    assert answer[..|answer|] == answer;
  }

  /** Sorts the items of the pairs parents first, or reports what is stuck on or behind a cycle. */
  method Topsort<T(==,!new)>(pairs: Pairs<T>) returns (r: SortResult<T>)
    ensures r.CycleError? <==> HasCycle(pairs)
    ensures r.Sorted? ==> NoDup(r.order) && Elems(r.order) == Elements(pairs) && ParentsFirst(pairs, r.order)
    ensures r.CycleError? ==>
              && (forall x :: x in r.numParents <==> BelowCycle(pairs, x))
              && NoDup(r.answer) && Elems(r.answer) == Elements(pairs) - r.numParents.Keys
              && ParentsFirst(pairs, r.answer)
              && Tables(pairs, Elements(pairs), Parents(pairs), Elems(r.answer), r.numParents, r.children)
              && ParentClosed(pairs, r.numParents.Keys)
  {
    var numParents, children := CountParents(pairs);
    var answer := ZeroItems(numParents);
    assert Elems(answer[..0]) == {};
    StaysParentsFirst(pairs, [], answer, 0);
    answer, numParents, children := Drain(pairs, Elements(pairs), Parents(pairs), answer, numParents, children);
    Leftovers(pairs, Elements(pairs), answer);
    CycleIffBelow(pairs);
    if numParents != map[] {
      assert numParents.Keys != {};
      return CycleError(answer, numParents, children);
    }
    assert numParents.Keys == {};
    return Sorted(answer);
  }

  /** What never becomes ready is exactly what lies on or behind a cycle, and each such item has a
      parent that never becomes ready either. */
  lemma {:induction false} Leftovers<T(!new)>(pairs: Pairs<T>, keys: set<T>, answer: seq<T>)
    requires Elements(pairs) <= keys && Ready(pairs, keys, Elems(answer), answer)
    ensures forall x :: x in keys - Elems(answer) <==> BelowCycle(pairs, x)
    ensures ParentClosed(pairs, keys - Elems(answer))
  {
    var rest := keys - Elems(answer);
    WaitingParentClosed(pairs, keys, Elems(answer));
    forall x
      ensures x in rest <==> BelowCycle(pairs, x)
    {
      if x in rest {
        ParentClosedBelowCycle(pairs, rest, x);
      } else if BelowCycle(pairs, x) {
        BelowCycleMentioned(pairs, x);
        var w :| IsChain(pairs, w) && Loops(w) && w[|w| - 1] == x;
        ChainsClimb(pairs, answer, w, IndexOf(answer, x));
        assert false;
      }
    }
  }
}

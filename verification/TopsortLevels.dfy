/** `topsort_levels` and `topsort_levels_core` of bindings/python/topsort.py.  The generator's items
    are returned as one list, together with how the generator ended. */
module TopsortLevels {
  import opened Collections
  import opened DependencyGraph
  import opened Topsort

  datatype Ending<T> =
    | StopIteration
    | LevelCycleError(numParents: map<T, int>, children: map<T, seq<T>>)

  /** The longest chain of predecessors of `x` has exactly `k` edges. */
  ghost predicate AtDepth<T(!new)>(pairs: Pairs<T>, x: T, k: nat) {
    HasChain(pairs, x, k) && !HasChain(pairs, x, k + 1)
  }

  /** `done` holds the items with no chain of `k` edges behind them. */
  ghost predicate DoneTo<T(!new)>(pairs: Pairs<T>, keys: set<T>, done: set<T>, k: nat) {
    forall x :: x in done <==> x in keys && !HasChain(pairs, x, k)
  }

  /** Level `k` lists each item of depth `k` once. */
  ghost predicate LevelsOk<T(!new)>(pairs: Pairs<T>, keys: set<T>, levels: seq<seq<T>>) {
    forall k :: 0 <= k < |levels| ==>
      && levels[k] != []
      && NoDup(levels[k])
      && forall x :: x in levels[k] <==> x in keys && AtDepth(pairs, x, k)
  }

  lemma {:induction false} ChainFromParent<T(!new)>(pairs: Pairs<T>, x: T, k: nat)
    ensures HasChain(pairs, x, k + 1) <==> exists e :: e in pairs && e.1 == x && HasChain(pairs, e.0, k)
  {
    if HasChain(pairs, x, k + 1) {
      var w :| IsChain(pairs, w) && |w| == k + 2 && w[k + 1] == x;
      SubChain(pairs, w, 0, k + 1);
      var v := w[0..k + 1];
      assert IsChain(pairs, v) && |v| == k + 1 && v[k] == w[k];
      var e := (w[k], w[k + 1]);
      assert e in pairs && e.1 == x && HasChain(pairs, e.0, k);
    }
    if e :| e in pairs && e.1 == x && HasChain(pairs, e.0, k) {
      var v :| IsChain(pairs, v) && |v| == k + 1 && v[k] == e.0;
      assert (v[|v| - 1], x) == e;
      LongerChain(pairs, v, x);
      var w := v + [x];
      assert IsChain(pairs, w) && |w| == k + 2 && w[k + 1] == x;
    }
  }

  lemma {:induction false} ShorterChain<T(!new)>(pairs: Pairs<T>, x: T, k: nat)
    requires HasChain(pairs, x, k + 1)
    ensures HasChain(pairs, x, k)
  {
    var w :| IsChain(pairs, w) && |w| == k + 2 && w[k + 1] == x;
    SubChain(pairs, w, 1, k + 2);
    var v := w[1..k + 2];
    assert IsChain(pairs, v) && |v| == k + 1 && v[k] == x;
  }

  /** Nothing in `done` leads into an item counted zero, and that makes it one of depth `k`. */
  lemma {:induction false} ZeroIsNextLevel<T(!new)>(pairs: Pairs<T>, keys: set<T>, done: set<T>, k: nat, x: T)
    requires Elements(pairs) <= keys && DoneTo(pairs, keys, done, k) && x in keys
    ensures x !in done && Incoming(pairs, done, x) == 0 <==> AtDepth(pairs, x, k)
  {
    IncomingZero(pairs, done, x);
    ChainFromParent(pairs, x, k);
    if AtDepth(pairs, x, k) {
      forall e | e in pairs && e.1 == x
        ensures e.0 in done
      {
        assert e.0 in keys;
      }
    }
  }

  /** Taking a level off leaves the items with a chain of one edge more behind them. */
  lemma {:induction false} LevelTaken<T(!new)>(pairs: Pairs<T>, keys: set<T>, done: set<T>, k: nat, level: seq<T>)
    requires DoneTo(pairs, keys, done, k)
    requires forall x :: x in level <==> x in keys && AtDepth(pairs, x, k)
    ensures DoneTo(pairs, keys, done + Elems(level), k + 1)
  {
    forall x
      ensures x in done + Elems(level) <==> x in keys && !HasChain(pairs, x, k + 1)
    {
      if HasChain(pairs, x, k + 1) {
        ShorterChain(pairs, x, k);
      }
    }
  }

  /** When no item is counted zero any more, what is left is what lies on or behind a cycle. */
  lemma {:induction false} NothingReady<T(!new)>(pairs: Pairs<T>, keys: set<T>, done: set<T>, k: nat)
    requires Elements(pairs) <= keys && DoneTo(pairs, keys, done, k)
    requires forall x :: x in keys - done ==> Incoming(pairs, done, x) != 0
    ensures forall x :: x in keys - done <==> BelowCycle(pairs, x)
    ensures ParentClosed(pairs, keys - done)
  {
    var rest := keys - done;
    WaitingParentClosed(pairs, keys, done);
    forall x
      ensures x in rest <==> BelowCycle(pairs, x)
    {
      if x in rest {
        ParentClosedBelowCycle(pairs, rest, x);
      }
      if BelowCycle(pairs, x) {
        BelowCycleMentioned(pairs, x);
        var w :| IsChain(pairs, w) && Loops(w) && w[|w| - 1] == x;
        Stretch(pairs, w, k);
      }
    }
  }

  /** The counters after the first `m` children of `parent`, which is already deleted. */
  ghost predicate CountedDown<T>(pairs: Pairs<T>, keys: set<T>, done: set<T>, parent: T, m: nat, numParents: map<T,
      int>)
    requires m <= |ChildList(pairs, parent)|
  {
    && numParents.Keys == keys - done - {parent}
    && forall x :: x in numParents ==> numParents[x] == Left(pairs, done, parent, m, x)
  }

  lemma {:induction false} CountDownStep<T(!new)>(pairs: Pairs<T>, keys: set<T>, done: set<T>, parent: T, m: nat,
      numParents: map<T, int>)
    requires m < |ChildList(pairs, parent)| && parent !in done && Elements(pairs) <= keys
    requires Incoming(pairs, done, parent) == 0 && forall x :: x in done ==> Incoming(pairs, done, x) == 0
    requires CountedDown(pairs, keys, done, parent, m, numParents)
    ensures var child := ChildList(pairs, parent)[m];
      child in numParents &&
      CountedDown(pairs, keys, done, parent, m + 1, numParents[child := numParents[child] - 1])
  {
    var child := ChildList(pairs, parent)[m];
    ChildListElements(pairs, parent);
    assert (parent, child) in pairs;
    assert child in keys;
    LeftStep(pairs, done, parent, m, child);
    assert Incoming(pairs, done, child) > 0;
    forall x
      ensures Left(pairs, done, parent, m + 1, x) == Left(pairs, done, parent, m, x) - if x == child then 1 else 0
    {
      LeftStep(pairs, done, parent, m, x);
    }
  }

  lemma {:induction false} CountDownStarts<T(!new)>(pairs: Pairs<T>, keys: set<T>, parents: set<T>, done: set<T>,
                                                    parent: T, numParents: map<T, int>, children: map<T, seq<T>>)
    requires Tables(pairs, keys, parents, done, numParents, children) && parent !in done
    ensures CountedDown(pairs, keys, done, parent, 0, numParents - {parent})
  {
    hide Incoming, ChildList;
    forall x
      ensures Left(pairs, done, parent, 0, x) == Incoming(pairs, done, x)
    {
      LeftEnds(pairs, done, parent, x);
    }
  }

  lemma {:induction false} CountDownEnds<T(!new)>(pairs: Pairs<T>, keys: set<T>, done: set<T>, parent: T,
                                                  numParents: map<T, int>)
    requires parent !in done && CountedDown(pairs, keys, done, parent, |ChildList(pairs, parent)|, numParents)
    ensures numParents.Keys == keys - (done + {parent})
    ensures forall x :: x in numParents ==> numParents[x] == Incoming(pairs, done + {parent}, x)
  {
    hide Incoming, ChildList;
    forall x
      ensures Left(pairs, done, parent, |ChildList(pairs, parent)|, x) == Incoming(pairs, done + {parent}, x)
    {
      LeftEnds(pairs, done, parent, x);
    }
  }

  /** Deletes one item of a level and counts its children down. */
  method TakeParent<T(==,!new)>(ghost pairs: Pairs<T>, ghost keys: set<T>, ghost parents: set<T>, ghost done: set<T>,
                                parent: T, numParents: map<T, int>, children: map<T, seq<T>>)
    returns (numParents': map<T, int>, children': map<T, seq<T>>)
    requires Elements(pairs) <= keys && Parents(pairs) <= parents
    requires Tables(pairs, keys, parents, done, numParents, children)
    requires parent in keys - done && Incoming(pairs, done, parent) == 0
    requires forall x :: x in done ==> Incoming(pairs, done, x) == 0
    ensures Tables(pairs, keys, parents, done + {parent}, numParents', children')
  {
    ChildrenTaken(pairs, keys, parents, done, parent, numParents, children);
    CountDownStarts(pairs, keys, parents, done, parent, numParents, children);
    numParents', children' := numParents - {parent}, children;
    hide Incoming, ChildList, CountedDown;
    if parent in children {
      for m := 0 to |children[parent]|
        invariant CountedDown(pairs, keys, done, parent, m, numParents')
      {
        var child := children[parent][m];
        CountDownStep(pairs, keys, done, parent, m, numParents');
        numParents' := numParents'[child := numParents'[child] - 1];
      }
      children' := children' - {parent};
    }
    CountDownEnds(pairs, keys, done, parent, numParents');
  }

  lemma {:induction false} IncomingShrinks<T>(pairs: Pairs<T>, done: set<T>, more: set<T>, x: T)
    requires done <= more && Incoming(pairs, done, x) == 0
    ensures Incoming(pairs, more, x) == 0
  {
    IncomingZero(pairs, done, x);
    IncomingZero(pairs, more, x);
  }

  /** Takes a whole level off the two dictionaries. */
  method TakeLevel<T(==,!new)>(ghost pairs: Pairs<T>, ghost keys: set<T>, ghost parents: set<T>, ghost done: set<T>,
                               level: seq<T>, numParents: map<T, int>, children: map<T, seq<T>>)
    returns (numParents': map<T, int>, children': map<T, seq<T>>)
    requires Elements(pairs) <= keys && Parents(pairs) <= parents
    requires Tables(pairs, keys, parents, done, numParents, children)
    requires NoDup(level) && forall x :: x in level ==> x in keys - done && Incoming(pairs, done, x) == 0
    requires forall x :: x in done ==> Incoming(pairs, done, x) == 0
    ensures Tables(pairs, keys, parents, done + Elems(level), numParents', children')
    ensures forall x :: x in done + Elems(level) ==> Incoming(pairs, done + Elems(level), x) == 0
  {
    numParents', children' := numParents, children;
    assert done + Elems(level[..0]) == done;
    for i := 0 to |level|
      invariant Tables(pairs, keys, parents, done + Elems(level[..i]), numParents', children')
    {
      ghost var sofar := done + Elems(level[..i]);
      forall x | x in done + Elems(level)
        ensures Incoming(pairs, sofar, x) == 0
      {
        IncomingShrinks(pairs, done, sofar, x);
      }
      assert level[i] in level && level[i] !in level[..i];
      numParents', children' := TakeParent(pairs, keys, parents, sofar, level[i], numParents', children');
      TakeOneMore(level, level, i);
      assert done + Elems(level[..i + 1]) == sofar + {level[i]};
    }
    assert level[..|level|] == level;
    forall x | x in done + Elems(level)
      ensures Incoming(pairs, done + Elems(level), x) == 0
    {
      IncomingShrinks(pairs, done, done + Elems(level), x);
    }
  }

  /** What holds between two levels. */
  ghost predicate Progress<T(!new)>(pairs: Pairs<T>, keys: set<T>, done: set<T>, levels: seq<seq<T>>) {
    && done <= keys
    && DoneTo(pairs, keys, done, |levels|)
    && LevelsOk(pairs, keys, levels)
    && (forall x :: x in done ==> exists k :: 0 <= k < |levels| && x in levels[k])
    && (forall x :: x in done ==> Incoming(pairs, done, x) == 0)
  }

  lemma {:induction false} NextLevel<T(!new)>(pairs: Pairs<T>, keys: set<T>, done: set<T>, levels: seq<seq<T>>,
      level: seq<T>)
    requires Elements(pairs) <= keys && Progress(pairs, keys, done, levels)
    requires level != [] && NoDup(level)
    requires forall x :: x in level <==> x in keys - done && Incoming(pairs, done, x) == 0
    requires forall x :: x in done + Elems(level) ==> Incoming(pairs, done + Elems(level), x) == 0
    ensures Progress(pairs, keys, done + Elems(level), levels + [level])
  {
    hide Incoming, AtDepth;
    var k := |levels|;
    forall x | x in keys
      ensures x in level <==> AtDepth(pairs, x, k)
    {
      ZeroIsNextLevel(pairs, keys, done, k, x);
    }
    LevelTaken(pairs, keys, done, k, level);
    var after := levels + [level];
    assert after[k] == level;
    assert forall i :: 0 <= i < k ==> after[i] == levels[i];
    forall x | x in done + Elems(level)
      ensures exists i :: 0 <= i < |after| && x in after[i]
    {
      if x in done {
        var i :| 0 <= i < k && x in levels[i];
        assert x in after[i];
      } else {
        assert x in after[k];
      }
    }
  }

  /** Level by level.  The caller's dictionaries must agree: each count is the number of times the
      item occurs in the child lists, which `pairs` spells out. */
  method TopsortLevelsCore<T(==,!new)>(ghost pairs: Pairs<T>, numParents: map<T, int>, children: map<T, seq<T>>)
    returns (levels: seq<seq<T>>, ending: Ending<T>)
    requires Elements(pairs) <= numParents.Keys && Parents(pairs) <= children.Keys
    requires Tables(pairs, numParents.Keys, children.Keys, {}, numParents, children)
    ensures LevelsOk(pairs, numParents.Keys, levels)
    ensures forall x :: x in numParents && !BelowCycle(pairs, x) ==> exists k :: 0 <= k < |levels| && x in levels[k]
    ensures ending.LevelCycleError? <==> HasCycle(pairs)
    ensures ending.LevelCycleError? ==>
              && (forall x :: x in ending.numParents <==> BelowCycle(pairs, x))
              && Tables(pairs, numParents.Keys, children.Keys, numParents.Keys - ending.numParents.Keys,
                        ending.numParents, ending.children)
              && ParentClosed(pairs, ending.numParents.Keys)
  {
    ghost var keys, parents := numParents.Keys, children.Keys;
    var numParents', children' := numParents, children;
    ghost var done := {};
    levels := [];
    forall x
      ensures HasChain(pairs, x, 0)
    {
      assert IsChain(pairs, [x]);
    }
    while true
      invariant Tables(pairs, keys, parents, done, numParents', children')
      invariant Progress(pairs, keys, done, levels)
      decreases keys - done
    {
      var levelParents := ZeroItems(numParents');
      if levelParents == [] {
        break;
      }
      assert levelParents[0] in levelParents;
      numParents', children' := TakeLevel(pairs, keys, parents, done, levelParents, numParents', children');
      NextLevel(pairs, keys, done, levels, levelParents);
      levels := levels + [levelParents];
      done := done + Elems(levelParents);
    }
    NothingReady(pairs, keys, done, |levels|);
    CycleIffBelow(pairs);
    assert keys - numParents'.Keys == done;
    if numParents' != map[] {
      assert numParents'.Keys != {};
      ending := LevelCycleError(numParents', children');
    } else {
      assert numParents'.Keys == {};
      ending := StopIteration;
    }
  }

  /** Levels of the items of a pair list: level `k` is the items whose longest chain of predecessors
      has `k` edges. */
  method TopsortLevels<T(==,!new)>(pairs: Pairs<T>) returns (levels: seq<seq<T>>, ending: Ending<T>)
    ensures LevelsOk(pairs, Elements(pairs), levels)
    ensures forall x :: x in Elements(pairs) && !BelowCycle(pairs, x) ==>
              exists k :: 0 <= k < |levels| && x in levels[k]
    ensures ending.LevelCycleError? <==> HasCycle(pairs)
    ensures ending.LevelCycleError? ==>
              && (forall x :: x in ending.numParents <==> BelowCycle(pairs, x))
              && Tables(pairs, Elements(pairs), Parents(pairs), Elements(pairs) - ending.numParents.Keys,
                        ending.numParents, ending.children)
              && ParentClosed(pairs, ending.numParents.Keys)
  {
    var numParents, children := CountParents(pairs);
    assert numParents.Keys == Elements(pairs) && children.Keys == Parents(pairs);
    hide Tables, LevelsOk, ParentClosed, BelowCycle, HasCycle, Elements, Parents;
    levels, ending := TopsortLevelsCore(pairs, numParents, children);
  }
}

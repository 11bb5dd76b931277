/** What is recorded of the graph of types is one entry for each walk that visits no type twice. */
module ConfigWalks {
  import opened Collections
  import opened ConfigGraph

  /** The types that a walk visits: at each one it names a way on by its place. */
  ghost function Visits(w: World, tid: nat, walk: seq<nat>): seq<nat>
    requires WorldOk(w) && tid < |w.registry.types|
    decreases |walk|
  {
    if walk == [] || walk[0] >= |Edges(w, tid)| then [tid]
    else
      EdgesWithin(w, tid);
      [tid] + Visits(w, Edges(w, tid)[walk[0]].target, walk[1..])
  }

  ghost function Labels(w: World, tid: nat, walk: seq<nat>): seq<string>
    requires WorldOk(w) && tid < |w.registry.types|
    decreases |walk|
  {
    if walk == [] || walk[0] >= |Edges(w, tid)| then []
    else
      EdgesWithin(w, tid);
      [Edges(w, tid)[walk[0]].step] + Labels(w, Edges(w, tid)[walk[0]].target, walk[1..])
  }

  ghost predicate IsWalk(w: World, tid: nat, walk: seq<nat>)
    requires WorldOk(w) && tid < |w.registry.types|
    decreases |walk|
  {
    walk == [] || (walk[0] < |Edges(w, tid)| &&
                   (EdgesWithin(w, tid); IsWalk(w, Edges(w, tid)[walk[0]].target, walk[1..])))
  }

  /** A walk that visits no type twice. */
  ghost predicate IsSimpleWalk(w: World, tid: nat, walk: seq<nat>)
    requires WorldOk(w) && tid < |w.registry.types|
  {
    IsWalk(w, tid, walk) && NoDup(Visits(w, tid, walk))
  }

  /** The type a walk leads to, and the string of the labels on its way. */
  ghost function EntryOf(w: World, path: seq<string>, tid: nat, walk: seq<nat>): Entry
    requires WorldOk(w) && tid < |w.registry.types|
  {
    (Visits(w, tid, walk)[|Visits(w, tid, walk)| - 1], PathString(path + Labels(w, tid, walk)))
  }

  ghost function Entries(w: World, path: seq<string>, tid: nat, walks: seq<seq<nat>>): seq<Entry>
    requires WorldOk(w) && tid < |w.registry.types|
  {
    if walks == [] then []
    else Entries(w, path, tid, walks[..|walks| - 1]) + [EntryOf(w, path, tid, walks[|walks| - 1])]
  }

  ghost function Prefixed(k: nat, walks: seq<seq<nat>>): seq<seq<nat>> {
    seq(|walks|, i requires 0 <= i < |walks| => [k] + walks[i])
  }

  /** The walks from `tid` on, which avoid the types `seen`, depth first. */
  ghost function Walks(w: World, seen: set<nat>, tid: nat): seq<seq<nat>>
    requires WorldOk(w) && tid < |w.registry.types|
    decreases |Unseen(w, seen)|, 0
  {
    if tid in seen then []
    else
      OneMoreSeen(w, seen, tid);
      [[]] + WalksAlong(w, seen + {tid}, tid, |Edges(w, tid)|)
  }

  ghost function WalksAlong(w: World, seen: set<nat>, tid: nat, k: nat): seq<seq<nat>>
    requires WorldOk(w) && tid < |w.registry.types| && k <= |Edges(w, tid)|
    decreases |Unseen(w, seen)|, k
  {
    if k == 0 then []
    else
      EdgesWithin(w, tid);
      WalksAlong(w, seen, tid, k - 1) + Prefixed(k - 1, Walks(w, seen, Edges(w, tid)[k - 1].target))
  }

  lemma {:induction false} EntriesConcat(w: World, path: seq<string>, tid: nat, a: seq<seq<nat>>, b: seq<seq<nat>>)
    requires WorldOk(w) && tid < |w.registry.types|
    ensures Entries(w, path, tid, a + b) == Entries(w, path, tid, a) + Entries(w, path, tid, b)
  {
    hide EntryOf, WorldOk;
    if b == [] {
      assert a + b == a;
    } else {
      assert (a + b)[..|a + b| - 1] == a + b[..|b| - 1];
      EntriesConcat(w, path, tid, a, b[..|b| - 1]);
    }
  }

  lemma {:induction false} EntryOfPrefixed(w: World, path: seq<string>, tid: nat, k: nat, walk: seq<nat>)
    requires WorldOk(w) && tid < |w.registry.types| && k < |Edges(w, tid)| && Within(w, Edges(w, tid))
    ensures EntryOf(w, path, tid, [k] + walk) ==
            EntryOf(w, path + [Edges(w, tid)[k].step], Edges(w, tid)[k].target, walk)
  {
    hide Edges, WorldOk, PathString;
    var e := Edges(w, tid)[k];
    assert ([k] + walk)[1..] == walk;
    assert path + [e.step] + Labels(w, e.target, walk) == path + ([e.step] + Labels(w, e.target, walk));
  }

  lemma {:induction false} EntriesPrefixed(w: World, path: seq<string>, tid: nat, k: nat, walks: seq<seq<nat>>)
    requires WorldOk(w) && tid < |w.registry.types| && k < |Edges(w, tid)| && Within(w, Edges(w, tid))
    ensures Entries(w, path, tid, Prefixed(k, walks)) ==
            Entries(w, path + [Edges(w, tid)[k].step], Edges(w, tid)[k].target, walks)
  {
    hide EntryOf, Edges, WorldOk;
    if walks != [] {
      var n := |walks| - 1;
      assert Prefixed(k, walks)[..n] == Prefixed(k, walks[..n]);
      EntriesPrefixed(w, path, tid, k, walks[..n]);
      EntryOfPrefixed(w, path, tid, k, walks[n]);
    }
  }

  lemma {:induction false} GatheredEntries(w: World, path: seq<string>, seen: set<nat>, tid: nat)
    requires WorldOk(w) && tid < |w.registry.types|
    ensures Gathered(w, path, seen, tid) == Entries(w, path, tid, Walks(w, seen, tid))
    decreases |Unseen(w, seen)|, 0
  {
    hide Edges, WorldOk;
    if tid !in seen {
      EdgesWithin(w, tid);
      OneMoreSeen(w, seen, tid);
      var n := |Edges(w, tid)|;
      AlongEntries(w, path, seen + {tid}, tid, n);
      assert Edges(w, tid)[..n] == Edges(w, tid);
      EntriesConcat(w, path, tid, [[]], WalksAlong(w, seen + {tid}, tid, n));
      var start: seq<seq<nat>> := [[]];
      assert start[..0] == [];
      assert path + [] == path;
    }
  }

  lemma {:induction false} AlongEntries(w: World, path: seq<string>, seen: set<nat>, tid: nat, k: nat)
    requires WorldOk(w) && tid < |w.registry.types| && k <= |Edges(w, tid)| && Within(w, Edges(w, tid))
    ensures GatheredAlong(w, path, seen, Edges(w, tid)[..k]) == Entries(w, path, tid, WalksAlong(w, seen, tid, k))
    decreases |Unseen(w, seen)|, k
  {
    hide Edges, WorldOk, EntryOf;
    if k > 0 {
      var e := Edges(w, tid)[k - 1];
      AlongEntries(w, path, seen, tid, k - 1);
      GatheredEntries(w, path + [e.step], seen, e.target);
      EntriesPrefixed(w, path, tid, k - 1, Walks(w, seen, e.target));
      EntriesConcat(w, path, tid, WalksAlong(w, seen, tid, k - 1), Prefixed(k - 1, Walks(w, seen, e.target)));
      assert Edges(w, tid)[..k][..k - 1] == Edges(w, tid)[..k - 1];
    }
  }

  ghost predicate Avoids(visits: seq<nat>, seen: set<nat>) {
    forall i :: 0 <= i < |visits| ==> visits[i] !in seen
  }

  /** The list holds the simple walks, and each once. */
  lemma {:induction false} WalksExact(w: World, tid: nat)
    requires WorldOk(w) && tid < |w.registry.types|
    ensures forall walk :: walk in Walks(w, {}, tid) <==> IsSimpleWalk(w, tid, walk)
    ensures NoDup(Walks(w, {}, tid))
  {
    hide Edges, WorldOk;
    forall walk
      ensures walk in Walks(w, {}, tid) <==> IsSimpleWalk(w, tid, walk)
    {
      WalksAreSimple(w, {}, tid, walk);
    }
    WalksOnce(w, {}, tid);
  }

  lemma {:induction false} WalksAreSimple(w: World, seen: set<nat>, tid: nat, walk: seq<nat>)
    requires WorldOk(w) && tid < |w.registry.types|
    ensures walk in Walks(w, seen, tid) <==> IsSimpleWalk(w, tid, walk) && Avoids(Visits(w, tid, walk), seen)
    decreases |Unseen(w, seen)|, 0
  {
    hide Edges, WorldOk;
    if tid in seen {
      assert Visits(w, tid, walk)[0] == tid;
    } else {
      EdgesWithin(w, tid);
      OneMoreSeen(w, seen, tid);
      AlongAreSimple(w, seen + {tid}, tid, |Edges(w, tid)|, walk);
      if walk != [] && walk[0] < |Edges(w, tid)| {
        FirstStep(w, seen, tid, walk);
      }
    }
  }

  /** What a walk must satisfy after its first step. */
  lemma {:induction false} FirstStep(w: World, seen: set<nat>, tid: nat, walk: seq<nat>)
    requires WorldOk(w) && tid < |w.registry.types| && tid !in seen && Within(w, Edges(w, tid))
    requires walk != [] && walk[0] < |Edges(w, tid)|
    ensures IsSimpleWalk(w, tid, walk) && Avoids(Visits(w, tid, walk), seen) <==>
            (IsSimpleWalk(w, Edges(w, tid)[walk[0]].target, walk[1..]) &&
             Avoids(Visits(w, Edges(w, tid)[walk[0]].target, walk[1..]), seen + {tid}))
  {
    hide Edges, WorldOk, Visits, IsWalk, NoDup, Avoids;
    VisitsStep(w, tid, walk);
    ConsAvoids(tid, Visits(w, Edges(w, tid)[walk[0]].target, walk[1..]), seen);
  }

  lemma {:induction false} ConsAvoids(tid: nat, rest: seq<nat>, seen: set<nat>)
    requires tid !in seen
    ensures NoDup([tid] + rest) && Avoids([tid] + rest, seen) <==> NoDup(rest) && Avoids(rest, seen + {tid})
  {
    var all := [tid] + rest;
    assert all[0] == tid && forall i :: 0 <= i < |rest| ==> all[i + 1] == rest[i];
    if NoDup(all) && Avoids(all, seen) {
      forall i | 0 <= i < |rest|
        ensures rest[i] !in seen + {tid}
      {
        assert all[0] != all[i + 1];
      }
    }
    if NoDup(rest) && Avoids(rest, seen + {tid}) {
      forall i | 0 <= i < |all|
        ensures all[i] !in seen
      {
      }
    }
  }

  lemma {:induction false} VisitsStep(w: World, tid: nat, walk: seq<nat>)
    requires WorldOk(w) && tid < |w.registry.types| && Within(w, Edges(w, tid))
    requires walk != [] && walk[0] < |Edges(w, tid)|
    ensures Visits(w, tid, walk) == [tid] + Visits(w, Edges(w, tid)[walk[0]].target, walk[1..])
    ensures IsWalk(w, tid, walk) <==> IsWalk(w, Edges(w, tid)[walk[0]].target, walk[1..])
  {
    hide Edges, WorldOk;
  }

  lemma {:induction false} AlongAreSimple(w: World, seen: set<nat>, tid: nat, k: nat, walk: seq<nat>)
    requires WorldOk(w) && tid < |w.registry.types| && k <= |Edges(w, tid)| && Within(w, Edges(w, tid))
    ensures walk in WalksAlong(w, seen, tid, k) <==>
            walk != [] && walk[0] < k && IsSimpleWalk(w, Edges(w, tid)[walk[0]].target, walk[1..])
            && Avoids(Visits(w, Edges(w, tid)[walk[0]].target, walk[1..]), seen)
    decreases |Unseen(w, seen)|, k
  {
    hide Edges, WorldOk, IsSimpleWalk, Visits, Avoids, Walks;
    if k > 0 {
      var e := Edges(w, tid)[k - 1];
      AlongAreSimple(w, seen, tid, k - 1, walk);
      InPrefixed(k - 1, Walks(w, seen, e.target), walk);
      if walk != [] {
        WalksAreSimple(w, seen, e.target, walk[1..]);
      }
    }
  }

  lemma {:induction false} InPrefixed(k: nat, walks: seq<seq<nat>>, walk: seq<nat>)
    ensures walk in Prefixed(k, walks) <==> walk != [] && walk[0] == k && walk[1..] in walks
  {
    if walk in Prefixed(k, walks) {
      var i :| 0 <= i < |walks| && Prefixed(k, walks)[i] == walk;
      assert walk[1..] == walks[i];
    }
    if walk != [] && walk[0] == k && walk[1..] in walks {
      var i :| 0 <= i < |walks| && walks[i] == walk[1..];
      assert Prefixed(k, walks)[i] == [k] + walk[1..] == walk;
    }
  }

  lemma {:induction false} ConsOnce(walks: seq<seq<nat>>)
    requires NoDup(walks) && forall walk :: walk in walks ==> walk != []
    ensures NoDup([[]] + walks)
  {
    forall i | 0 <= i < |walks|
      ensures walks[i] != []
    {
      assert walks[i] in walks;
    }
  }

  lemma {:induction false} WalksOnce(w: World, seen: set<nat>, tid: nat)
    requires WorldOk(w) && tid < |w.registry.types|
    ensures NoDup(Walks(w, seen, tid))
    decreases |Unseen(w, seen)|, 0
  {
    hide Edges, WorldOk;
    if tid !in seen {
      EdgesWithin(w, tid);
      OneMoreSeen(w, seen, tid);
      AlongOnce(w, seen + {tid}, tid, |Edges(w, tid)|);
      var along := WalksAlong(w, seen + {tid}, tid, |Edges(w, tid)|);
      ConsOnce(along);
    }
  }

  lemma {:induction false} AlongOnce(w: World, seen: set<nat>, tid: nat, k: nat)
    requires WorldOk(w) && tid < |w.registry.types| && k <= |Edges(w, tid)| && Within(w, Edges(w, tid))
    ensures NoDup(WalksAlong(w, seen, tid, k))
    ensures forall walk :: walk in WalksAlong(w, seen, tid, k) ==> walk != [] && walk[0] < k
    decreases |Unseen(w, seen)|, k
  {
    hide Edges, WorldOk, Walks;
    if k > 0 {
      var walks := Walks(w, seen, Edges(w, tid)[k - 1].target);
      AlongOnce(w, seen, tid, k - 1);
      WalksOnce(w, seen, Edges(w, tid)[k - 1].target);
      PrefixedOnce(k - 1, walks);
      var before, more := WalksAlong(w, seen, tid, k - 1), Prefixed(k - 1, walks);
      assert forall i :: 0 <= i < |before| ==> before[i] in before;
      assert forall i :: 0 <= i < |more| ==> more[i][0] == k - 1;
    }
  }

  lemma {:induction false} PrefixedOnce(k: nat, walks: seq<seq<nat>>)
    requires NoDup(walks)
    ensures NoDup(Prefixed(k, walks))
  {
    forall i, j | 0 <= i < j < |walks|
      ensures Prefixed(k, walks)[i] != Prefixed(k, walks)[j]
    {
      assert ([k] + walks[i])[1..] == walks[i] && ([k] + walks[j])[1..] == walks[j];
    }
  }

  /* ----- depth first ----- */

  /** A walk comes before its continuations, and where two part, the one that takes the earlier way. */
  ghost predicate Sooner(a: seq<nat>, b: seq<nat>)
    decreases |a|
  {
    b != [] && (a == [] || a[0] < b[0] || (a[0] == b[0] && Sooner(a[1..], b[1..])))
  }

  ghost predicate InOrder(walks: seq<seq<nat>>) {
    forall i, j :: 0 <= i < j < |walks| ==> Sooner(walks[i], walks[j])
  }

  lemma {:induction false} PrefixedInOrder(k: nat, walks: seq<seq<nat>>)
    requires InOrder(walks)
    ensures InOrder(Prefixed(k, walks))
  {
    forall i, j | 0 <= i < j < |walks|
      ensures Sooner(Prefixed(k, walks)[i], Prefixed(k, walks)[j])
    {
      assert ([k] + walks[i])[1..] == walks[i] && ([k] + walks[j])[1..] == walks[j];
    }
  }

  lemma {:induction false} InOrderConcat(a: seq<seq<nat>>, b: seq<seq<nat>>)
    requires InOrder(a) && InOrder(b) && forall i, j :: 0 <= i < |a| && 0 <= j < |b| ==> Sooner(a[i], b[j])
    ensures InOrder(a + b)
  {
    hide Sooner;
  }

  /** The walks are listed depth first, each before its continuations. */
  lemma {:induction false} WalksInOrder(w: World, seen: set<nat>, tid: nat)
    requires WorldOk(w) && tid < |w.registry.types|
    ensures InOrder(Walks(w, seen, tid))
    decreases |Unseen(w, seen)|, 0
  {
    hide Edges, WorldOk;
    if tid !in seen {
      EdgesWithin(w, tid);
      OneMoreSeen(w, seen, tid);
      var along := WalksAlong(w, seen + {tid}, tid, |Edges(w, tid)|);
      AlongInOrder(w, seen + {tid}, tid, |Edges(w, tid)|);
      AlongOnce(w, seen + {tid}, tid, |Edges(w, tid)|);
      EmptyFirst(along);
      hide InOrder;
    }
  }

  lemma {:induction false} EmptyFirst(walks: seq<seq<nat>>)
    requires InOrder(walks) && forall walk :: walk in walks ==> walk != []
    ensures InOrder([[]] + walks)
  {
    forall i | 0 <= i < |walks|
      ensures walks[i] != []
    {
      assert walks[i] in walks;
    }
    InOrderConcat([[]], walks);
  }

  lemma {:induction false} AlongInOrder(w: World, seen: set<nat>, tid: nat, k: nat)
    requires WorldOk(w) && tid < |w.registry.types| && k <= |Edges(w, tid)| && Within(w, Edges(w, tid))
    ensures InOrder(WalksAlong(w, seen, tid, k))
    decreases |Unseen(w, seen)|, k
  {
    hide Edges, WorldOk, Walks;
    if k > 0 {
      var walks := Walks(w, seen, Edges(w, tid)[k - 1].target);
      AlongInOrder(w, seen, tid, k - 1);
      AlongOnce(w, seen, tid, k - 1);
      WalksInOrder(w, seen, Edges(w, tid)[k - 1].target);
      PrefixedInOrder(k - 1, walks);
      var before, more := WalksAlong(w, seen, tid, k - 1), Prefixed(k - 1, walks);
      assert forall i :: 0 <= i < |before| ==> before[i] in before;
      assert forall i :: 0 <= i < |more| ==> more[i] != [] && more[i][0] == k - 1;
      InOrderConcat(before, more);
    }
  }
}

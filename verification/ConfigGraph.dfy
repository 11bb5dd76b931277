/** The configuration paths of utils/print-introspected-doxygen.cc: how a type leads to the types it
    holds, specialises into and is aggregated with, and what following all ways on records. */
module ConfigGraph {
  import opened Collections

  /** What a checker was found to be by the casts, and the type it names. */
  datatype Checker = PointerTo(pointee: nat) | ContainerOf(item: nat) | OtherChecker

  datatype Attribute = Attribute(name: string, checker: Checker)

  datatype TypeInfo = TypeInfo(name: string, attributes: seq<Attribute>)

  /** The registered types, which a type id numbers; `isChildOf(a, b)` says that `a` derives from `b`. */
  datatype Registry = Registry(types: seq<TypeInfo>, isChildOf: (nat, nat) -> bool, objectTid: nat)

  datatype World = World(registry: Registry, aggregates: seq<(nat, nat)>)

  /** One way on from a type: the path item it adds and the type it leads to. */
  datatype Edge = Edge(step: string, target: nat)

  type Entry = (nat, string)

  ghost predicate TypeOk(w: World, t: TypeInfo) {
    forall i :: 0 <= i < |t.attributes| ==>
      match t.attributes[i].checker
      case PointerTo(pointee) => pointee < |w.registry.types|
      case ContainerOf(item) => item < |w.registry.types|
      case OtherChecker => true
  }

  /** Every type id in use is that of a registered type. */
  ghost predicate WorldOk(w: World) {
    && (forall t :: 0 <= t < |w.registry.types| ==> TypeOk(w, w.registry.types[t]))
    && (forall k :: 0 <= k < |w.aggregates| ==>
          w.aggregates[k].0 < |w.registry.types| && w.aggregates[k].1 < |w.registry.types|)
  }

  /* ----- the typed multigraph ----- */

  /** A pointer to a plain object is not followed. */
  function AttributeEdge(w: World, a: Attribute): seq<Edge> {
    match a.checker
    case PointerTo(pointee) => if pointee == w.registry.objectTid then [] else [Edge(a.name, pointee)]
    case ContainerOf(item) => [Edge(a.name + "/[i]", item)]
    case OtherChecker => []
  }

  function TypeEdge(w: World, target: nat): Edge
    requires target < |w.registry.types|
  {
    Edge("$" + w.registry.types[target].name, target)
  }

  function AggregateEdge(w: World, tid: nat, pair: (nat, nat)): seq<Edge>
    requires pair.0 < |w.registry.types| && pair.1 < |w.registry.types|
  {
    if pair.1 == tid then [TypeEdge(w, pair.0)] else if pair.0 == tid then [TypeEdge(w, pair.1)] else []
  }

  function AttributeEdges(w: World, tid: nat, n: nat): seq<Edge>
    requires tid < |w.registry.types| && n <= |w.registry.types[tid].attributes|
  {
    if n == 0 then []
    else AttributeEdges(w, tid, n - 1) + AttributeEdge(w, w.registry.types[tid].attributes[n - 1])
  }

  function ChildEdges(w: World, tid: nat, n: nat): seq<Edge>
    requires n <= |w.registry.types|
  {
    if n == 0 then []
    else ChildEdges(w, tid, n - 1) + if w.registry.isChildOf(n - 1, tid) then [TypeEdge(w, n - 1)] else []
  }

  ghost function AggregateEdges(w: World, tid: nat, n: nat): seq<Edge>
    requires WorldOk(w) && n <= |w.aggregates|
  {
    if n == 0 then [] else AggregateEdges(w, tid, n - 1) + AggregateEdge(w, tid, w.aggregates[n - 1])
  }

  /** The ways on from a type, with repetitions, in the order in which they are followed. */
  ghost function Edges(w: World, tid: nat): seq<Edge>
    requires WorldOk(w) && tid < |w.registry.types|
  {
    AttributeEdges(w, tid, |w.registry.types[tid].attributes|) + ChildEdges(w, tid, |w.registry.types|)
    + AggregateEdges(w, tid, |w.aggregates|)
  }

  ghost predicate Within(w: World, edges: seq<Edge>) {
    forall i :: 0 <= i < |edges| ==> edges[i].target < |w.registry.types|
  }

  lemma {:induction false} AttributeEdgesWithin(w: World, tid: nat, n: nat)
    requires WorldOk(w) && tid < |w.registry.types| && n <= |w.registry.types[tid].attributes|
    ensures Within(w, AttributeEdges(w, tid, n))
  {
    if n > 0 {
      AttributeEdgesWithin(w, tid, n - 1);
      assert TypeOk(w, w.registry.types[tid]);
    }
  }

  lemma {:induction false} ChildEdgesWithin(w: World, tid: nat, n: nat)
    requires n <= |w.registry.types|
    ensures Within(w, ChildEdges(w, tid, n))
  {
    if n > 0 {
      ChildEdgesWithin(w, tid, n - 1);
    }
  }

  lemma {:induction false} AggregateEdgesWithin(w: World, tid: nat, n: nat)
    requires WorldOk(w) && n <= |w.aggregates|
    ensures Within(w, AggregateEdges(w, tid, n))
  {
    if n > 0 {
      AggregateEdgesWithin(w, tid, n - 1);
    }
  }

  lemma {:induction false} EdgesWithin(w: World, tid: nat)
    requires WorldOk(w) && tid < |w.registry.types|
    ensures Within(w, Edges(w, tid))
  {
    AttributeEdgesWithin(w, tid, |w.registry.types[tid].attributes|);
    ChildEdgesWithin(w, tid, |w.registry.types|);
    AggregateEdgesWithin(w, tid, |w.aggregates|);
  }

  /* ----- what is recorded ----- */

  /** `GetCurrentPath`. */
  function PathString(path: seq<string>): string {
    if path == [] then "" else PathString(path[..|path| - 1]) + "/" + path[|path| - 1]
  }

  ghost function Unseen(w: World, seen: set<nat>): set<nat> {
    set t: nat | t < |w.registry.types| && t !in seen
  }

  lemma {:induction false} OneMoreSeen(w: World, seen: set<nat>, tid: nat)
    requires tid < |w.registry.types| && tid !in seen
    ensures |Unseen(w, seen + {tid})| < |Unseen(w, seen)|
  {
    assert Unseen(w, seen) == Unseen(w, seen + {tid}) + {tid};
  }

  /** What gathering from `tid` adds, coming by `path` through the types `seen`. */
  ghost function Gathered(w: World, path: seq<string>, seen: set<nat>, tid: nat): seq<Entry>
    requires WorldOk(w) && tid < |w.registry.types|
    decreases |Unseen(w, seen)|, 0
  {
    if tid in seen then []
    else
      EdgesWithin(w, tid);
      OneMoreSeen(w, seen, tid);
      [(tid, PathString(path))] + GatheredAlong(w, path, seen + {tid}, Edges(w, tid))
  }

  ghost function GatheredAlong(w: World, path: seq<string>, seen: set<nat>, edges: seq<Edge>): seq<Entry>
    requires WorldOk(w) && Within(w, edges)
    decreases |Unseen(w, seen)|, |edges|
  {
    if edges == [] then []
    else
      var last := edges[|edges| - 1];
      GatheredAlong(w, path, seen, edges[..|edges| - 1]) + Gathered(w, path + [last.step], seen, last.target)
  }

  lemma {:induction false} AlongOneMore(w: World, path: seq<string>, seen: set<nat>, edges: seq<Edge>, e: Edge)
    requires WorldOk(w) && Within(w, edges) && e.target < |w.registry.types|
    ensures Within(w, edges + [e])
    ensures GatheredAlong(w, path, seen, edges + [e]) ==
            GatheredAlong(w, path, seen, edges) + Gathered(w, path + [e.step], seen, e.target)
  {
    assert (edges + [e])[..|edges|] == edges;
  }

  lemma {:induction false} GatheredParts(w: World, path: seq<string>, seen: set<nat>, tid: nat)
    requires WorldOk(w) && tid < |w.registry.types|
    ensures Within(w, Edges(w, tid)) && GatheredAlong(w, path, seen, []) == []
    ensures Gathered(w, path, seen, tid) ==
            if tid in seen then [] else [(tid, PathString(path))] + GatheredAlong(w, path, seen + {tid}, Edges(w, tid))
  {
    hide Edges, WorldOk;
    EdgesWithin(w, tid);
  }
}

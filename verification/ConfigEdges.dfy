/** Which ways on a type has, how often and in which order, and what a path looks like, told from the
    registry and the aggregations alone. */
module ConfigEdges {
  import opened ConfigGraph

  /** What a way on comes from: an attribute of the type, a registered type, or an aggregation. */
  datatype Way = ByAttribute(i: nat) | ByChild(j: nat) | ByAggregate(k: nat)

  /** Attributes come first, then the types that derive from this one, then the aggregations. */
  predicate Before(a: Way, b: Way) {
    match a
    case ByAttribute(i) => b.ByAttribute? ==> i < b.i
    case ByChild(j) => !b.ByAttribute? && (b.ByChild? ==> j < b.j)
    case ByAggregate(k) => b.ByAggregate? && k < b.k
  }

  predicate NamesType(w: World, e: Edge) {
    e.target < |w.registry.types| && e.step == "$" + w.registry.types[e.target].name
  }

  /** An attribute leads to the type it points to, unless that is the plain object, and to the items of its
      container; a type to each one that derives from it, and to each it is paired with by an aggregation. */
  predicate Leads(w: World, tid: nat, way: Way, e: Edge)
    requires tid < |w.registry.types|
  {
    match way
    case ByAttribute(i) =>
      && i < |w.registry.types[tid].attributes|
      && var a := w.registry.types[tid].attributes[i];
      || (a.checker == PointerTo(e.target) && e.target != w.registry.objectTid && e.step == a.name)
      || (a.checker == ContainerOf(e.target) && e.step == a.name + "/[i]")
    case ByChild(j) => e.target == j && NamesType(w, e) && w.registry.isChildOf(j, tid)
    case ByAggregate(k) =>
      && k < |w.aggregates| && NamesType(w, e)
      && (w.aggregates[k] == (tid, e.target) || w.aggregates[k] == (e.target, tid))
  }

  /** The edges are those of the ways, one by one. */
  ghost predicate Follow(w: World, tid: nat, ways: seq<Way>, edges: seq<Edge>)
    requires tid < |w.registry.types|
  {
    && |ways| == |edges|
    && (forall n :: 0 <= n < |ways| ==> Leads(w, tid, ways[n], edges[n]))
    && forall n, m :: 0 <= n < m < |ways| ==> Before(ways[n], ways[m])
  }

  /** The ways are among those that satisfy `among`, and all of these that lead anywhere. */
  ghost predicate Exactly(w: World, tid: nat, ways: seq<Way>, among: Way -> bool)
    requires tid < |w.registry.types|
  {
    && (forall n :: 0 <= n < |ways| ==> among(ways[n]))
    && forall way, e :: among(way) && Leads(w, tid, way, e) ==> way in ways
  }

  lemma {:induction false} OneMoreWay(w: World, tid: nat, ways: seq<Way>, edges: seq<Edge>, way: Way, e: Edge)
    requires tid < |w.registry.types| && Follow(w, tid, ways, edges) && Leads(w, tid, way, e)
    requires forall n :: 0 <= n < |ways| ==> Before(ways[n], way)
    ensures Follow(w, tid, ways + [way], edges + [e])
  {
    hide Leads, Before;
  }

  function AttributesUpTo(n: nat): Way -> bool {
    (way: Way) => way.ByAttribute? && way.i < n
  }

  function ChildrenUpTo(n: nat): Way -> bool {
    (way: Way) => way.ByChild? && way.j < n
  }

  function AggregatesUpTo(n: nat): Way -> bool {
    (way: Way) => way.ByAggregate? && way.k < n
  }

  /** An attribute leads on by one way or by none. */
  lemma {:induction false} AttributeLeads(w: World, tid: nat, i: nat)
    requires tid < |w.registry.types| && i < |w.registry.types[tid].attributes|
    ensures var edges := AttributeEdge(w, w.registry.types[tid].attributes[i]);
      && |edges| <= 1
      && forall e :: Leads(w, tid, ByAttribute(i), e) <==> edges == [e]
  {
  }

  lemma {:induction false} AggregateLeads(w: World, tid: nat, k: nat)
    requires WorldOk(w) && tid < |w.registry.types| && k < |w.aggregates|
    ensures var edges := AggregateEdge(w, tid, w.aggregates[k]);
      && |edges| <= 1
      && forall e :: Leads(w, tid, ByAggregate(k), e) <==> edges == [e]
  {
  }

  /** `way` is the last of those among which the ways are. */
  lemma {:induction false} NextWay(w: World, tid: nat, ways: seq<Way>, edges: seq<Edge>, way: Way,
      more: seq<Edge>, among: Way -> bool, among': Way -> bool)
    returns (ways': seq<Way>)
    requires tid < |w.registry.types| && Follow(w, tid, ways, edges) && Exactly(w, tid, ways, among)
    requires |more| <= 1 && forall e :: Leads(w, tid, way, e) <==> more == [e]
    requires forall v :: among'(v) <==> among(v) || v == way
    requires forall v :: among(v) ==> Before(v, way)
    ensures Follow(w, tid, ways', edges + more) && Exactly(w, tid, ways', among')
  {
    hide Leads, Before;
    if more == [] {
      ways' := ways;
      assert edges + more == edges;
    } else {
      assert more == [more[0]];
      assert Leads(w, tid, way, more[0]);
      ways' := ways + [way];
      OneMoreWay(w, tid, ways, edges, way, more[0]);
    }
  }

  lemma {:induction false} AttributeWays(w: World, tid: nat, n: nat) returns (ways: seq<Way>)
    requires tid < |w.registry.types| && n <= |w.registry.types[tid].attributes|
    ensures Follow(w, tid, ways, AttributeEdges(w, tid, n)) && Exactly(w, tid, ways, AttributesUpTo(n))
  {
    ways := [];
    if n > 0 {
      hide Leads, Follow, Exactly;
      ways := AttributeWays(w, tid, n - 1);
      AttributeLeads(w, tid, n - 1);
      ways := NextWay(w, tid, ways, AttributeEdges(w, tid, n - 1), ByAttribute(n - 1),
                      AttributeEdge(w, w.registry.types[tid].attributes[n - 1]), AttributesUpTo(n - 1),
                      AttributesUpTo(n));
    }
  }

  lemma {:induction false} ChildLeads(w: World, tid: nat, j: nat)
    requires tid < |w.registry.types| && j < |w.registry.types|
    ensures var edges := if w.registry.isChildOf(j, tid) then [TypeEdge(w, j)] else [];
      forall e :: Leads(w, tid, ByChild(j), e) <==> edges == [e]
  {
  }

  lemma {:induction false} ChildWays(w: World, tid: nat, n: nat) returns (ways: seq<Way>)
    requires tid < |w.registry.types| && n <= |w.registry.types|
    ensures Follow(w, tid, ways, ChildEdges(w, tid, n)) && Exactly(w, tid, ways, ChildrenUpTo(n))
  {
    ways := [];
    if n > 0 {
      hide Leads, Follow, Exactly;
      ways := ChildWays(w, tid, n - 1);
      ChildLeads(w, tid, n - 1);
      ways := NextWay(w, tid, ways, ChildEdges(w, tid, n - 1), ByChild(n - 1),
                      if w.registry.isChildOf(n - 1, tid) then [TypeEdge(w, n - 1)] else [], ChildrenUpTo(n - 1),
                      ChildrenUpTo(n));
    }
  }

  lemma {:induction false} AggregateWays(w: World, tid: nat, n: nat) returns (ways: seq<Way>)
    requires WorldOk(w) && tid < |w.registry.types| && n <= |w.aggregates|
    ensures Follow(w, tid, ways, AggregateEdges(w, tid, n)) && Exactly(w, tid, ways, AggregatesUpTo(n))
  {
    ways := [];
    if n > 0 {
      hide Leads, Follow, Exactly;
      ways := AggregateWays(w, tid, n - 1);
      AggregateLeads(w, tid, n - 1);
      ways := NextWay(w, tid, ways, AggregateEdges(w, tid, n - 1), ByAggregate(n - 1),
                      AggregateEdge(w, tid, w.aggregates[n - 1]), AggregatesUpTo(n - 1), AggregatesUpTo(n));
    }
  }

  lemma {:induction false} FollowConcat(w: World, tid: nat, a: seq<Way>, b: seq<Way>, es: seq<Edge>, fs: seq<Edge>)
    requires tid < |w.registry.types| && Follow(w, tid, a, es) && Follow(w, tid, b, fs)
    requires forall n, m :: 0 <= n < |a| && 0 <= m < |b| ==> Before(a[n], b[m])
    ensures Follow(w, tid, a + b, es + fs)
  {
    hide Leads, Before;
  }

  /** The edges are exactly those that the ways lead along, one for each, attributes first, then children,
      then aggregations, each in the order in which they are registered. */
  lemma {:induction false} EdgesAre(w: World, tid: nat) returns (ways: seq<Way>)
    requires WorldOk(w) && tid < |w.registry.types|
    ensures Follow(w, tid, ways, Edges(w, tid))
    ensures forall way, e :: Leads(w, tid, way, e) ==> way in ways
  {
    var attributes := AttributeWays(w, tid, |w.registry.types[tid].attributes|);
    var children := ChildWays(w, tid, |w.registry.types|);
    var aggregates := AggregateWays(w, tid, |w.aggregates|);
    hide AttributeEdges, ChildEdges, AggregateEdges, Follow, WorldOk;
    FollowConcat(w, tid, attributes, children, AttributeEdges(w, tid, |w.registry.types[tid].attributes|),
                 ChildEdges(w, tid, |w.registry.types|));
    FollowConcat(w, tid, attributes + children, aggregates,
                 AttributeEdges(w, tid, |w.registry.types[tid].attributes|) + ChildEdges(w, tid, |w.registry.types|),
                 AggregateEdges(w, tid, |w.aggregates|));
    ways := attributes + children + aggregates;
  }

  /** There is an edge exactly if some way leads along it. */
  lemma {:induction false} EdgeIff(w: World, tid: nat, e: Edge)
    requires WorldOk(w) && tid < |w.registry.types|
    ensures e in Edges(w, tid) <==> exists way :: Leads(w, tid, way, e)
  {
    hide Edges, WorldOk, Before;
    var ways := EdgesAre(w, tid);
    if e in Edges(w, tid) {
      var n :| 0 <= n < |Edges(w, tid)| && Edges(w, tid)[n] == e;
      assert Leads(w, tid, ways[n], e);
    }
    if way :| Leads(w, tid, way, e) {
      var n :| 0 <= n < |ways| && ways[n] == way;
      OneTarget(w, tid, way, e, Edges(w, tid)[n]);
    }
  }

  lemma {:induction false} OneTarget(w: World, tid: nat, way: Way, e: Edge, f: Edge)
    requires tid < |w.registry.types| && Leads(w, tid, way, e) && Leads(w, tid, way, f)
    ensures e == f
  {
  }

  /* ----- what a path looks like ----- */

  /** Where the `k`-th item of a path begins in its string: behind the items before it, with a slash each. */
  function Place(path: seq<string>, k: nat): nat
    requires k <= |path|
  {
    if k == 0 then 0 else Place(path, k - 1) + 1 + |path[k - 1]|
  }

  lemma {:induction false} Behind(front: string, item: string, rest: string)
    ensures var s, n := front + "/" + item + rest, |front|;
      s[n] == '/' && s[n + 1..n + 1 + |item|] == item
  {
  }

  lemma {:induction false} ItemInside(path: seq<string>, k: nat) returns (rest: string)
    requires k < |path|
    ensures PathString(path) == PathString(path[..k]) + "/" + path[k] + rest
  {
    var n := |path| - 1;
    if k < n {
      var r := ItemInside(path[..n], k);
      rest := r + "/" + path[n];
      assert path[..n][..k] == path[..k];
    } else {
      rest := "";
    }
  }

  lemma {:induction false} PlaceIs(path: seq<string>, k: nat)
    requires k <= |path|
    ensures |PathString(path[..k])| == Place(path, k)
  {
    if k > 0 {
      PlaceIs(path, k - 1);
      assert path[..k][..k - 1] == path[..k - 1];
    }
  }

  /** A path's string is each item in turn behind one slash, and nothing else. */
  lemma {:induction false} PathItem(path: seq<string>, k: nat)
    requires k < |path|
    ensures Place(path, k + 1) <= |PathString(path)| == Place(path, |path|)
    ensures PathString(path)[Place(path, k)] == '/'
    ensures PathString(path)[Place(path, k) + 1..Place(path, k + 1)] == path[k]
  {
    var rest := ItemInside(path, k);
    PlaceIs(path, k);
    PlaceIs(path, |path|);
    assert path[..|path|] == path;
    hide PathString;
    Behind(PathString(path[..k]), path[k], rest);
  }
}

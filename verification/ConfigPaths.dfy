/** The class `StaticInformation` of utils/print-introspected-doxygen.cc, which explores the types with
    two stacks of its own. */
module ConfigPaths {
  import opened Collections
  import opened ConfigGraph
  import opened ConfigWalks

  class StaticInformation {
    const registry: Registry
    var output: seq<Entry>
    var currentPath: seq<string>
    var alreadyProcessed: seq<nat>
    var aggregates: seq<(nat, nat)>

    ghost function TheWorld(): World
      reads this
    {
      World(registry, aggregates)
    }

    constructor (registry: Registry)
      ensures this.registry == registry && output == [] && currentPath == [] && alreadyProcessed == []
          && aggregates == []
    {
      this.registry := registry;
      output, currentPath, alreadyProcessed, aggregates := [], [], [], [];
    }

    method GetCurrentPath() returns (path: string)
      ensures path == PathString(currentPath)
    {
      path := "";
      for i := 0 to |currentPath|
        invariant path == PathString(currentPath[..i])
      {
        assert currentPath[..i + 1][..i] == currentPath[..i];
        path := path + "/" + currentPath[i];
      }
      assert currentPath[..|currentPath|] == currentPath;
    }

    method HasAlreadyBeenProcessed(tid: nat) returns (found: bool)
      ensures found <==> tid in alreadyProcessed
    {
      for i := 0 to |alreadyProcessed|
        invariant tid !in alreadyProcessed[..i]
      {
        if alreadyProcessed[i] == tid {
          return true;
        }
      }
      return false;
    }

    method RecordOutput(tid: nat)
      modifies this`output
      ensures output == old(output) + [(tid, PathString(currentPath))]
    {
      var path := GetCurrentPath();
      output := output + [(tid, path)];
    }

    /** Goes one way on and comes back.  `edges` are the ways already followed from `tid`. */
    method Follow(tid: nat, e: Edge, ghost out: seq<Entry>, ghost edges: seq<Edge>)
      requires WorldOk(TheWorld()) && tid < |registry.types| && e.target < |registry.types|
      requires tid !in alreadyProcessed && Within(TheWorld(), edges)
      requires output == out + GatheredAlong(TheWorld(), currentPath, Elems(alreadyProcessed) + {tid}, edges)
      modifies this`output, this`currentPath, this`alreadyProcessed
      ensures currentPath == old(currentPath) && alreadyProcessed == old(alreadyProcessed)
      ensures Within(TheWorld(), edges + [e])
      ensures output == out + GatheredAlong(TheWorld(), currentPath, Elems(alreadyProcessed) + {tid}, edges + [e])
      decreases |Unseen(TheWorld(), Elems(alreadyProcessed) + {tid})|, 1
    {
      hide Gathered, GatheredAlong, Unseen, WorldOk, Within, Elems;
      AlongOneMore(TheWorld(), currentPath, Elems(alreadyProcessed) + {tid}, edges, e);
      ElemsOneMore(alreadyProcessed, tid);
      currentPath := currentPath + [e.step];
      alreadyProcessed := alreadyProcessed + [tid];
      DoGather(e.target);
      alreadyProcessed := alreadyProcessed[..|alreadyProcessed| - 1];
      currentPath := currentPath[..|currentPath| - 1];
    }

    method FollowAttributes(tid: nat, ghost out: seq<Entry>)
      requires WorldOk(TheWorld()) && tid < |registry.types| && tid !in alreadyProcessed && output == out
      modifies this`output, this`currentPath, this`alreadyProcessed
      ensures currentPath == old(currentPath) && alreadyProcessed == old(alreadyProcessed)
      ensures var edges := AttributeEdges(TheWorld(), tid, |registry.types[tid].attributes|);
        Within(TheWorld(), edges) &&
        output == out + GatheredAlong(TheWorld(), currentPath, Elems(alreadyProcessed) + {tid}, edges)
      decreases |Unseen(TheWorld(), Elems(alreadyProcessed) + {tid})|, 2
    {
      hide Gathered, GatheredAlong, Unseen, Elems;
      ghost var w, seen := TheWorld(), Elems(alreadyProcessed);
      GatheredParts(w, currentPath, seen + {tid}, tid);
      var attributes := registry.types[tid].attributes;
      for i := 0 to |attributes|
        invariant currentPath == old(currentPath) && alreadyProcessed == old(alreadyProcessed)
        invariant Within(w, AttributeEdges(w, tid, i))
        invariant output == out + GatheredAlong(w, currentPath, seen + {tid}, AttributeEdges(w, tid, i))
      {
        ghost var edges := AttributeEdges(w, tid, i);
        assert TypeOk(w, registry.types[tid]);
        var info := attributes[i];
        match info.checker
        case PointerTo(pointee) =>
          if pointee == registry.objectTid {
            assert edges + [] == edges;
            continue;
          }
          Follow(tid, Edge(info.name, pointee), out, edges);
        case ContainerOf(item) =>
          Follow(tid, Edge(info.name + "/[i]", item), out, edges);
        case OtherChecker =>
          assert edges + [] == edges;
      }
    }

    method FollowChildren(tid: nat, ghost out: seq<Entry>, ghost edges: seq<Edge>)
      requires WorldOk(TheWorld()) && tid < |registry.types| && tid !in alreadyProcessed && Within(TheWorld(), edges)
      requires output == out + GatheredAlong(TheWorld(), currentPath, Elems(alreadyProcessed) + {tid}, edges)
      modifies this`output, this`currentPath, this`alreadyProcessed
      ensures currentPath == old(currentPath) && alreadyProcessed == old(alreadyProcessed)
      ensures var edges' := edges + ChildEdges(TheWorld(), tid, |registry.types|);
        Within(TheWorld(), edges') &&
        output == out + GatheredAlong(TheWorld(), currentPath, Elems(alreadyProcessed) + {tid}, edges')
      decreases |Unseen(TheWorld(), Elems(alreadyProcessed) + {tid})|, 2
    {
      hide Gathered, GatheredAlong, Unseen, Elems;
      ghost var w, seen := TheWorld(), Elems(alreadyProcessed);
      assert edges + [] == edges;
      for j := 0 to |registry.types|
        invariant currentPath == old(currentPath) && alreadyProcessed == old(alreadyProcessed)
        invariant Within(w, edges + ChildEdges(w, tid, j))
        invariant output == out + GatheredAlong(w, currentPath, seen + {tid}, edges + ChildEdges(w, tid, j))
      {
        ghost var before, more := ChildEdges(w, tid, j), ChildEdges(w, tid, j + 1);
        if registry.isChildOf(j, tid) {
          var e := Edge("$" + registry.types[j].name, j);
          Follow(tid, e, out, edges + before);
          assert edges + more == edges + before + [e];
        } else {
          assert more == before;
        }
      }
    }

    method FollowAggregates(tid: nat, ghost out: seq<Entry>, ghost edges: seq<Edge>)
      requires WorldOk(TheWorld()) && tid < |registry.types| && tid !in alreadyProcessed && Within(TheWorld(), edges)
      requires output == out + GatheredAlong(TheWorld(), currentPath, Elems(alreadyProcessed) + {tid}, edges)
      modifies this`output, this`currentPath, this`alreadyProcessed
      ensures currentPath == old(currentPath) && alreadyProcessed == old(alreadyProcessed)
      ensures var edges' := edges + AggregateEdges(TheWorld(), tid, |aggregates|);
        Within(TheWorld(), edges') &&
        output == out + GatheredAlong(TheWorld(), currentPath, Elems(alreadyProcessed) + {tid}, edges')
      decreases |Unseen(TheWorld(), Elems(alreadyProcessed) + {tid})|, 2
    {
      hide Gathered, GatheredAlong, Unseen, Elems;
      ghost var w, seen := TheWorld(), Elems(alreadyProcessed);
      assert edges + [] == edges;
      for k := 0 to |aggregates|
        invariant currentPath == old(currentPath) && alreadyProcessed == old(alreadyProcessed)
        invariant Within(w, edges + AggregateEdges(w, tid, k))
        invariant output == out + GatheredAlong(w, currentPath, seen + {tid}, edges + AggregateEdges(w, tid, k))
      {
        ghost var before, more := AggregateEdges(w, tid, k), AggregateEdges(w, tid, k + 1);
        var tmp := aggregates[k];
        if tmp.0 == tid || tmp.1 == tid {
          var other := tmp.1;
          if tmp.1 == tid {
            other := tmp.0;
          }
          var e := Edge("$" + registry.types[other].name, other);
          Follow(tid, e, out, edges + before);
          assert edges + more == edges + before + [e];
        } else {
          assert more == before;
        }
      }
    }

    /** Adds what is to be gathered and leaves both stacks as they were. */
    method DoGather(tid: nat)
      requires WorldOk(TheWorld()) && tid < |registry.types|
      modifies this`output, this`currentPath, this`alreadyProcessed
      ensures currentPath == old(currentPath) && alreadyProcessed == old(alreadyProcessed)
      ensures output == old(output) + Gathered(TheWorld(), currentPath, Elems(alreadyProcessed), tid)
      decreases |Unseen(TheWorld(), Elems(alreadyProcessed))|, 0
    {
      hide Gathered, GatheredAlong, Unseen, AttributeEdges, ChildEdges, AggregateEdges, WorldOk, PathString;
      ghost var w, seen := TheWorld(), Elems(alreadyProcessed);
      GatheredParts(w, currentPath, seen, tid);
      var processed := HasAlreadyBeenProcessed(tid);
      if processed {
        return;
      }
      OneMoreSeen(w, seen, tid);
      RecordOutput(tid);
      ghost var out := output;
      ghost var attributeEdges := AttributeEdges(w, tid, |registry.types[tid].attributes|);
      FollowAttributes(tid, out);
      FollowChildren(tid, out, attributeEdges);
      FollowAggregates(tid, out, attributeEdges + ChildEdges(w, tid, |registry.types|));
    }

    /** The sorting and thinning out that follows works on a copy of the output. */
    method Gather(tid: nat)
      requires WorldOk(TheWorld()) && tid < |registry.types| && currentPath == [] && alreadyProcessed == []
      modifies this`output, this`currentPath, this`alreadyProcessed
      ensures currentPath == [] && alreadyProcessed == []
      ensures output == old(output) + Entries(TheWorld(), [], tid, Walks(TheWorld(), {}, tid))
    {
      DoGather(tid);
      assert Elems(alreadyProcessed) == {};
      GatheredEntries(TheWorld(), [], {}, tid);
    }
  }
}

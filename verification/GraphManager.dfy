/** The adjacency sets of include/graph_hwm.hpp, and the networks built from generated edge lists. */
module GraphManager {
  import opened Arith
  import opened Cuckoo
  import opened CuckooSet

  /** The neighbour sets with one more edge. */
  function WithEdge(links: seq<set<nat>>, a: nat, b: nat, directed: bool): (r: seq<set<nat>>)
    requires a < |links| && b < |links|
    ensures |r| == |links|
  {
    var forth := links[a := links[a] + {b}];
    if directed then forth else forth[b := forth[b] + {a}]
  }

  class Manager {
    const shape: Shape
    const directed: bool
    var graph: seq<HashSet>

    ghost function Tables(): set<object>
      reads this, graph
    {
      (set g: HashSet | g in graph :: g as object) + (set g: HashSet | g in graph :: g.ht as object)
    }

    /** Every node has a set of its own, with a table of its own. */
    ghost predicate Valid()
      reads this, graph, Tables()
    {
      && shape.slots >= 1
      && (forall i :: 0 <= i < |graph| ==> shape.IsKey(i))
      && (forall i :: 0 <= i < |graph| ==> graph[i].shape == shape && graph[i].Valid())
      && (forall i, j :: 0 <= i < j < |graph| ==> graph[i] != graph[j] && graph[i].ht != graph[j].ht)
    }

    ghost function Links(): seq<set<nat>>
      reads this, graph, Tables()
    {
      seq(|graph|, i requires 0 <= i < |graph| reads this, graph, Tables() => graph[i].Contents())
    }

    constructor (shape: Shape, directed: bool)
      requires shape.slots >= 1
      ensures Valid() && Links() == [] && this.shape == shape && this.directed == directed
    {
      this.shape, this.directed, graph := shape, directed, [];
    }

    /** The set of a new node starts empty. */
    method AddNode()
      requires Valid() && shape.IsKey(|graph|)
      modifies this
      ensures Valid() && fresh(Tables() - old(Tables()))
      ensures Links() == old(Links()) + [{}]
    {
      var g := new HashSet(shape);
      graph := graph + [g];
    }

    method InsertAt(a: nat, b: nat)
      requires Valid() && a < |graph| && b < |graph|
      modifies Tables()
      ensures Valid() && graph == old(graph) && fresh(Tables() - old(Tables()))
      ensures Links() == old(Links())[a := old(Links())[a] + {b}]
    {
      ghost var before := Links();
      graph[a].Insert(b);
      forall i | 0 <= i < |graph| && i != a
        ensures graph[i].Valid() && graph[i].Contents() == before[i]
        ensures graph[i].ht == old(graph[i].ht) && graph[i].ht != graph[a].ht
      {
        assert graph[i] != graph[a] && old(graph[i].ht) != old(graph[a].ht);
      }
      assert graph[a].Contents() == before[a] + {b};
    }

    /** `add_edge`; an edge that names a node that is not there is refused. */
    method AddEdge(a: nat, b: nat) returns (ok: bool)
      requires Valid()
      modifies Tables()
      ensures Valid() && graph == old(graph) && fresh(Tables() - old(Tables()))
      ensures ok <==> a < |graph| && b < |graph|
      ensures Links() == if ok then WithEdge(old(Links()), a, b, directed) else old(Links())
    {
      if a >= |graph| || b >= |graph| { return false; }
      InsertAt(a, b);
      if !directed {
        InsertAt(b, a);
      }
      ok := true;
    }

    method CanSend(a: nat, b: nat) returns (can: bool)
      requires Valid() && a < |graph| && b < Pow2(shape.bits)
      ensures b != shape.missing ==> (can <==> b in Links()[a])
    {
      can := graph[a].Count(b);
    }

    /** The neighbours in the order of iteration, each once. */
    method IterNeighbours(n: nat) returns (neighs: seq<nat>)
      requires Valid() && n < |graph|
      ensures Lists(neighs, Links()[n])
    {
      neighs := graph[n].Elements();
    }
  }
}

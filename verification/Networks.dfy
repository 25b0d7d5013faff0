/** Networks put together from generated graphs, as examples/tinycoin/main.cpp does it: the hypothesis of
  * the convergence of gossip holds for them. */
module Networks {
  import opened GraphGen
  import opened GraphManager
  import opened Gossip
  import Rng
  import TinyChain

  ghost predicate Joins(e: Edge, n: nat) {
    e.first < n && e.second < n
  }

  /** The edges are between nodes that there are. */
  ghost predicate Within(edges: seq<Edge>, n: nat) {
    forall e :: e in edges ==> Joins(e, n)
  }

  /** The neighbour sets after adding a list of undirected edges. */
  ghost function AddAll(links: seq<set<nat>>, edges: seq<Edge>): (r: seq<set<nat>>)
    requires Within(edges, |links|)
    ensures |r| == |links|
  {
    if edges == [] then links
    else
      var front, e := edges[..|edges| - 1], edges[|edges| - 1];
      WithinFront(edges, |links|);
      WithEdge(AddAll(links, front), e.first, e.second, false)
  }

  lemma {:induction false} AddAllJoins(links: seq<set<nat>>, edges: seq<Edge>, a: nat, b: nat)
    requires Within(edges, |links|)
    requires a < |links|
    ensures b in AddAll(links, edges)[a] <==> b in links[a] || Edge(a, b) in edges || Edge(b, a) in edges
  {
    if edges != [] {
      var front, e := edges[..|edges| - 1], edges[|edges| - 1];
      WithinFront(edges, |links|);
      AddAllJoins(links, front, a, b);
      assert forall x :: x in edges <==> x in front || x == e by {
        assert edges == front + [e];
      }
    }
  }

  lemma WithinFront(edges: seq<Edge>, n: nat)
    requires Within(edges, n) && edges != []
    ensures Within(edges[..|edges| - 1], n) && Joins(edges[|edges| - 1], n)
  {
  }

  lemma AddAllAppend(links: seq<set<nat>>, front: seq<Edge>, e: Edge)
    requires Within(front, |links|) && Joins(e, |links|)
    ensures Within(front + [e], |links|)
    ensures AddAll(links, front + [e]) == WithEdge(AddAll(links, front), e.first, e.second, false)
  {
    assert (front + [e])[..|front + [e]| - 1] == front;
  }

  lemma NextEdge(links: seq<set<nat>>, edges: seq<Edge>, i: nat)
    requires i < |edges| && Within(edges[..i], |links|) && Joins(edges[i], |links|)
    ensures Within(edges[..i + 1], |links|)
    ensures AddAll(links, edges[..i + 1]) ==
            WithEdge(AddAll(links, edges[..i]), edges[i].first, edges[i].second, false)
  {
    assert edges[..i + 1] == edges[..i] + [edges[i]];
    AddAllAppend(links, edges[..i], edges[i]);
  }

  function NoLinks(n: nat): seq<set<nat>> {
    seq(n, _ => {})
  }

  /** Nodes first, then the edges one by one; it fails at an edge that names a node there is not. */
  method Build(hwm: Manager, n: nat, edges: seq<Edge>) returns (ok: bool)
    requires hwm.Valid() && hwm.Links() == [] && !hwm.directed && forall i :: 0 <= i < n ==> hwm.shape.IsKey(i)
    modifies hwm
    ensures hwm.Valid() && (ok <==> Within(edges, n))
    ensures ok ==> hwm.Links() == AddAll(NoLinks(n), edges)
  {
    AddNodes(hwm, n);
    assert |hwm.Links()| == |hwm.graph|;
    ghost var upto;
    ok, upto := AddEdges(hwm, edges);
    if ok {
      assert edges[..upto] == edges;
    } else {
      assert edges[upto] in edges;
    }
  }

  method AddNodes(hwm: Manager, n: nat)
    requires hwm.Valid() && hwm.Links() == [] && forall i :: 0 <= i < n ==> hwm.shape.IsKey(i)
    modifies hwm
    ensures hwm.Valid() && fresh(hwm.Tables()) && hwm.Links() == NoLinks(n)
  {
    assert |hwm.Links()| == |hwm.graph|;
    for i := 0 to n
      invariant hwm.Valid() && hwm.Links() == NoLinks(i) && |hwm.graph| == i
      invariant fresh(hwm.Tables())
    {
      hwm.AddNode();
      assert |hwm.Links()| == |hwm.graph|;
      assert NoLinks(i + 1) == NoLinks(i) + [{}];
    }
  }

  /** The edges before the first that names a node there is not are added. */
  method AddEdges(hwm: Manager, edges: seq<Edge>) returns (ok: bool, ghost upto: nat)
    requires hwm.Valid() && !hwm.directed
    modifies hwm.Tables()
    ensures hwm.Valid() && hwm.graph == old(hwm.graph) && |old(hwm.Links())| == |hwm.graph|
    ensures upto <= |edges| && Within(edges[..upto], |hwm.graph|)
    ensures hwm.Links() == AddAll(old(hwm.Links()), edges[..upto])
    ensures if ok then upto == |edges| else upto < |edges| && !Joins(edges[upto], |hwm.graph|)
  {
    ghost var links := hwm.Links();
    var i := 0;
    ok, upto := true, 0;
    while ok && i < |edges|
      invariant hwm.Valid() && hwm.graph == old(hwm.graph) && fresh(hwm.Tables() - old(hwm.Tables()))
      invariant upto <= |edges| && Within(edges[..upto], |links|)
      invariant hwm.Links() == AddAll(links, edges[..upto])
      invariant if ok then upto == i <= |edges| else upto < |edges| && !Joins(edges[upto], |links|)
      decreases |edges| - i
    {
      ok := hwm.AddEdge(edges[i].first, edges[i].second);
      if ok {
        NextEdge(links, edges, i);
        upto := i + 1;
      }
      i := i + 1;
    }
  }

  // ---------------------------------------------------------------- connectivity

  lemma {:induction false} PathToRoot(net: Network, edges: seq<Edge>, a: nat) returns (path: seq<nat>)
    requires Downward(edges, |net.links|) && Rooted(edges, |net.links|)
    requires net.links == AddAll(NoLinks(|net.links|), edges)
    requires a < |net.links|
    ensures IsPath(net, path, a, 0)
  {
    if a == 0 {
      path := [0];
    } else {
      assert Descends(edges, a);
      var e :| e in edges && e.first == a && e.second < a;
      assert e == Edge(a, e.second);
      AddAllJoins(NoLinks(|net.links|), edges, a, e.second);
      var rest := PathToRoot(net, edges, e.second);
      path := [a] + rest;
    }
  }

  lemma {:induction false} Reverse(net: Network, path: seq<nat>, a: nat, b: nat) returns (back: seq<nat>)
    requires Undirected(net) && IsPath(net, path, a, b)
    ensures IsPath(net, back, b, a)
    decreases |path|
  {
    if |path| == 1 {
      back := path;
    } else {
      var c := path[1];
      var rest := Reverse(net, path[1..], c, b);
      assert Neighbours(net, path[0], path[1]);
      back := rest + [a];
    }
  }

  lemma Join(net: Network, p: seq<nat>, q: seq<nat>, a: nat, b: nat, c: nat)
    requires IsPath(net, p, a, b) && IsPath(net, q, b, c)
    ensures Linked(net, a, c)
  {
    var path := p + q[1..];
    forall k | 0 <= k < |path| - 1
      ensures Neighbours(net, path[k], path[k + 1])
    {
      if k >= |p| - 1 {
        var i := k - (|p| - 1);
        assert path[k] == q[i] && path[k + 1] == q[i + 1];
      }
    }
    assert IsPath(net, path, a, c);
  }

  lemma BuiltNetworkIsUndirected(net: Network, edges: seq<Edge>)
    requires |net.links| == |net.rules| && Within(edges, |net.links|)
    requires net.links == AddAll(NoLinks(|net.links|), edges)
    ensures Undirected(net)
  {
    var n := |net.links|;
    forall a: nat, b: nat | a < n && b in net.links[a]
      ensures Neighbours(net, a, b) && Neighbours(net, b, a)
    {
      AddAllJoins(NoLinks(n), edges, a, b);
      AddAllJoins(NoLinks(n), edges, b, a);
    }
  }

  /** With the edge between nodes 0 and 1 alone, no node from 2 on is reached. */
  lemma OneEdgeLeavesOthersOut(net: Network, a: nat)
    requires 2 <= a < |net.links|
    requires net.links == AddAll(NoLinks(|net.links|), [Edge(1, 0)])
    ensures !Linked(net, a, 0)
  {
    forall path
      ensures !IsPath(net, path, a, 0)
    {
      if |path| > 1 && path[0] == a {
        AddAllJoins(NoLinks(|net.links|), [Edge(1, 0)], a, path[1]);
        assert !Neighbours(net, path[0], path[1]);
      }
    }
  }

  /** A network built from a rooted list of edges is undirected and connected. */
  lemma BuiltNetworkIsConnected(net: Network, edges: seq<Edge>)
    requires |net.links| == |net.rules|
    requires Downward(edges, |net.links|) && Rooted(edges, |net.links|)
    requires net.links == AddAll(NoLinks(|net.links|), edges)
    ensures Undirected(net) && Connected(net)
  {
    BuiltNetworkIsUndirected(net, edges);
    forall a: nat, b: nat | a < |net.links| && b < |net.links|
      ensures Linked(net, a, b)
    {
      var p := PathToRoot(net, edges, a);
      var q := PathToRoot(net, edges, b);
      var r := Reverse(net, q, b, 0);
      Join(net, p, r, a, 0, b);
    }
  }

  /** So gossip converges on it: once a run is at rest, two nodes have attached every mined block, have no
    * orphan left, and agree on the length of the best chain. */
  lemma BuiltNetworkConverges(net: Network, edges: seq<Edge>, ss: seq<State>, acts: seq<Action>,
                              i: nat, n: nat, k: nat, b: nat)
    requires |net.links| == |net.rules|
    requires Downward(edges, |net.links|) && Rooted(edges, |net.links|)
    requires net.links == AddAll(NoLinks(|net.links|), edges)
    requires IsRun(net, ss, acts) && i < |ss| && AtRest(ss[i])
    requires n < |ss[i].nodes| && k < |ss[i].nodes|
    ensures var l, h := ss[i].nodes[n].ledger, ss[i].nodes[k].ledger;
      && (b in ss[i].mined ==> TinyChain.Attached(l, b))
      && (TinyChain.Known(l, b) ==> TinyChain.Attached(l, b))
      && l.head < |l.lengths| && h.head < |h.lengths| && l.lengths[l.head] == h.lengths[h.head]
  {
    BuiltNetworkIsConnected(net, edges);
    GossipConverges(net, ss, acts, i, n, k, b);
  }

  /** A network over an Erdos graph is undirected and connected, whatever the numbers drawn. */
  method ErdosNetwork(rng: Rng.Xoroshiro, hwm: Manager, n: nat, m: int, ghost rules: seq<TinyChain.Rules>)
    returns (ghost net: Network)
    requires |rules| == n
    requires hwm.Valid() && hwm.Links() == [] && !hwm.directed && forall i :: 0 <= i < n ==> hwm.shape.IsKey(i)
    modifies rng, hwm
    ensures hwm.Valid() && net == Network(rules, hwm.Links())
    ensures Undirected(net) && Connected(net)
  {
    var edges := GenConnErdos(rng, n, m);
    var _ := Build(hwm, n, edges);
    net := Network(rules, hwm.Links());
    BuiltNetworkIsConnected(net, edges);
  }

  /** Over a scale-free graph the network is undirected, and connected if and only if K is not 0 or there are two
    * nodes. With fewer than two nodes it is refused, for the edge between nodes 0 and 1. */
  method ScaleFreeNetwork(rng: Rng.Xoroshiro, hwm: Manager, n: nat, k: Int, ghost rules: seq<TinyChain.Rules>)
    returns (ok: bool, ghost net: Network)
    requires |rules| == n
    requires hwm.Valid() && hwm.Links() == [] && !hwm.directed && forall i :: 0 <= i < n ==> hwm.shape.IsKey(i)
    modifies rng, hwm
    ensures hwm.Valid() && net == Network(rules, hwm.Links())
    ensures ok <==> n >= 2
    ensures ok ==> Undirected(net) && (Connected(net) <==> k != 0 || n == 2)
  {
    var edges := GenBarabasiAlbert(rng, n, k);
    ok := Build(hwm, n, edges);
    net := Network(rules, hwm.Links());
    if ok {
      assert Joins(Edge(1, 0), n);
      BuiltNetworkIsUndirected(net, edges);
      if k != 0 || n == 2 {
        BuiltNetworkIsConnected(net, edges);
      } else {
        OneEdgeLeavesOthersOut(net, 2);
      }
    }
  }
}

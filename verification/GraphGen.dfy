/** The random graphs of include/graph_gen.hpp. */
module GraphGen {
  import opened Rng

  datatype Edge = Edge(first: nat, second: nat)

  // ---------------------------------------------------------------- edges as numbers

  /** Triangular numbers: f * (f - 1) / 2. */
  function Triangle(f: nat): nat {
    if f == 0 then 0 else Triangle(f - 1) + (f - 1)
  }

  lemma {:induction false} TriangleIsProduct(f: nat)
    ensures 2 * Triangle(f) == f * (f - 1) && Triangle(f) == f * (f - 1) / 2
  {
    if f > 0 {
      TriangleIsProduct(f - 1);
      assert (f - 1) * (f - 2) + 2 * (f - 1) == f * (f - 1);
    }
  }

  lemma {:induction false} TriangleGrows(f: nat, g: nat)
    requires f < g
    ensures Triangle(f) + f <= Triangle(g)
  {
    if f < g - 1 {
      TriangleGrows(f, g - 1);
    }
  }

  function Code(e: Edge): nat {
    Triangle(e.first) + e.second
  }

  /** n is the square root of x rounded to the nearest integer. */
  predicate IsRoundSqrt(n: nat, x: nat) {
    (n == 0 || (2 * n - 1) * (2 * n - 1) <= 4 * x) && 4 * x < (2 * n + 1) * (2 * n + 1)
  }

  /** `round(sqrt(x))` over exact reals. */
  function RoundSqrt(x: nat): (n: nat)
    ensures IsRoundSqrt(n, x)
  {
    RoundSqrtFrom(0, x)
  }

  function RoundSqrtFrom(n: nat, x: nat): (m: nat)
    requires n == 0 || (2 * n - 1) * (2 * n - 1) <= 4 * x
    ensures IsRoundSqrt(m, x)
    decreases 4 * x + 1 - n
  {
    if 4 * x < (2 * n + 1) * (2 * n + 1) then n
    else
      assert (2 * n + 1) * (2 * n + 1) >= 4 * n + 1;
      RoundSqrtFrom(n + 1, x)
  }

  lemma SquareOfInt(k: int)
    ensures k as real * k as real == (k * k) as real
  {
  }

  lemma SquareOfDouble(r: real)
    ensures (2.0 * r) * (2.0 * r) == 4.0 * (r * r)
  {
  }

  lemma ProductPositive(x: real, y: real)
    requires x > 0.0 && y > 0.0
    ensures x * y > 0.0
  {
  }

  lemma LargerSquare(a: real, b: real)
    requires 0.0 <= b < a
    ensures a * a > b * b
  {
    ProductPositive(a - b, a + b);
    assert (a - b) * (a + b) == a * a - b * b;
  }

  lemma SquaresAscend(a: real, b: real)
    requires 0.0 <= a && 0.0 <= b
    ensures a <= b <==> a * a <= b * b
  {
    if a < b { LargerSquare(b, a); }
    if b < a { LargerSquare(a, b); }
  }

  /** What IsRoundSqrt says of the real root r of x. */
  lemma RoundSqrtRounds(n: nat, x: nat, r: real)
    requires r >= 0.0 && r * r == x as real
    ensures IsRoundSqrt(n, x) <==> n as real - 0.5 <= r < n as real + 0.5
  {
    var lo, hi, s := 2 * n - 1, 2 * n + 1, 2.0 * r;
    SquareOfDouble(r);
    assert s * s == (4 * x) as real;
    SquaresAscend(hi as real, s);
    SquareOfInt(hi);
    if n > 0 {
      SquaresAscend(lo as real, s);
      SquareOfInt(lo);
    }
  }

  lemma RoundSqrtUnique(n: nat, m: nat, x: nat)
    requires IsRoundSqrt(n, x) && IsRoundSqrt(m, x)
    ensures n == m
  {
    if n < m { SquareStep(2 * n + 1, 2 * m - 1); }
    if m < n { SquareStep(2 * m + 1, 2 * n - 1); }
  }

  lemma SquareStep(a: nat, b: nat)
    requires a <= b
    ensures a * a <= b * b
  {
    assert a * a <= a * b <= b * b;
  }

  function Decode(code: nat): Edge {
    var first := RoundSqrt(2 * (code + 1));
    Edge(first, if code >= Triangle(first) then code - Triangle(first) else 0)
  }

  /** Decoding the code of an edge gives the edge. */
  lemma DecodeCode(e: Edge)
    requires e.second < e.first
    ensures Decode(Code(e)) == e
  {
    var f, s, x := e.first, e.second, 2 * (Code(e) + 1);
    TriangleIsProduct(f);
    assert x == f * (f - 1) + 2 * s + 2;
    assert (2 * f - 1) * (2 * f - 1) == 4 * (f * (f - 1)) + 1;
    assert (2 * f + 1) * (2 * f + 1) == 4 * (f * (f - 1)) + 8 * f + 1;
    assert IsRoundSqrt(f, x);
    RoundSqrtUnique(f, RoundSqrt(x), x);
  }

  /** Every number is the code of exactly the edge it decodes to, and the codes of the edges among n nodes
    * are the numbers below the n-th triangular number. */
  lemma CodeDecode(code: nat, n: nat)
    ensures var e := Decode(code);
      && e.second < e.first && Code(e) == code && code >= Triangle(e.first)
      && (code < Triangle(n) <==> e.first < n)
  {
    var e := SomeEdge(code);
    DecodeCode(e);
    if e.first < n { TriangleGrows(e.first, n); }
    if n < e.first { TriangleGrows(n, e.first); }
  }

  lemma {:induction false} SomeEdge(code: nat) returns (e: Edge)
    ensures e.second < e.first && Code(e) == code
  {
    if code == 0 {
      e := Edge(1, 0);
      assert Triangle(1) == 0;
    } else {
      e := SomeEdge(code - 1);
      e := if e.second + 1 < e.first then Edge(e.first, e.second + 1) else Edge(e.first + 1, 0);
    }
  }

  // ---------------------------------------------------------------- edge lists

  /** Edges among n nodes, each written from its larger node to its smaller one. */
  ghost predicate Downward(edges: seq<Edge>, n: nat) {
    forall e :: e in edges ==> e.second < e.first < n
  }

  ghost predicate NoRepeats(edges: seq<Edge>) {
    forall i, j :: 0 <= i < j < |edges| ==> edges[i] != edges[j]
  }

  /** Every node but 0 has an edge to a smaller one. */
  ghost predicate Rooted(edges: seq<Edge>, n: nat) {
    forall i {:trigger Descends(edges, i)} :: 1 <= i < n ==> Descends(edges, i)
  }

  ghost predicate Descends(edges: seq<Edge>, i: nat) {
    exists e :: e in edges && e.first == i && e.second < i
  }

  function Codes(edges: seq<Edge>): seq<nat> {
    seq(|edges|, i requires 0 <= i < |edges| => Code(edges[i]))
  }

  /** One edge down from each of the nodes 1, 2, ... */
  ghost predicate IsTree(edges: seq<Edge>) {
    forall i {:trigger edges[i]} :: 0 <= i < |edges| ==> edges[i].first == i + 1 && edges[i].second <= i
  }

  lemma TreeCodesAscend(edges: seq<Edge>)
    requires IsTree(edges)
    ensures Ascending(Codes(edges))
  {
    forall i, j | 0 <= i < j < |edges|
      ensures Codes(edges)[i] < Codes(edges)[j]
    {
      TriangleGrows(edges[i].first, edges[j].first);
    }
  }

  lemma {:induction false} SortedOfAscending(xs: seq<nat>)
    requires Ascending(xs)
    ensures Sorted(xs) == xs
  {
    if xs != [] {
      var front, last := xs[..|xs| - 1], xs[|xs| - 1];
      SortedOfAscending(front);
      InsertLast(front, last);
      assert xs == front + [last];
    }
  }

  lemma InsertLast(xs: seq<nat>, x: nat)
    requires xs != [] ==> xs[|xs| - 1] <= x
    ensures Insert(xs, x) == xs + [x]
  {
  }

  function Max(a: int, b: int): int { if a < b then b else a }

  function Decoded(codes: seq<nat>): seq<Edge> {
    seq(|codes|, i requires 0 <= i < |codes| => Decode(codes[i]))
  }

  /** New edges from distinct codes that the tree does not use. */
  lemma FreshEdges(tree: seq<Edge>, codes: seq<nat>, n: nat)
    requires IsTree(tree) && |tree| == n - 1
    requires Ascending(codes) && forall i :: 0 <= i < |codes| ==> codes[i] < Triangle(n) && codes[i] !in Codes(tree)
    ensures NoRepeats(tree + Decoded(codes)) && Downward(Decoded(codes), n)
  {
    var more := Decoded(codes);
    forall i | 0 <= i < |more|
      ensures more[i].second < more[i].first < n && Code(more[i]) == codes[i]
    {
      CodeDecode(codes[i], n);
    }
    forall i, j | 0 <= i < |tree| && 0 <= j < |more|
      ensures tree[i] != more[j]
    {
      assert Codes(tree)[i] == Code(tree[i]);
    }
    forall i, j | 0 <= i < j < |more|
      ensures more[i] != more[j]
    {
      assert codes[i] < codes[j];
    }
  }

  /** With all codes taken, every edge of the tree comes a second time. */
  lemma AllEdges(tree: seq<Edge>, codes: seq<nat>, n: nat)
    requires IsTree(tree) && |tree| == n - 1
    requires |codes| == Triangle(n) && forall i :: 0 <= i < |codes| ==> codes[i] == i
    ensures Downward(Decoded(codes), n)
    ensures n >= 2 ==> !NoRepeats(tree + Decoded(codes))
  {
    var more := Decoded(codes);
    forall i | 0 <= i < |more|
      ensures more[i].second < more[i].first < n
    {
      CodeDecode(codes[i], n);
    }
    if n >= 2 {
      FirstTwice(tree, codes);
      var all := tree + more;
      assert all[0] == all[n - 1];
    }
  }

  lemma FirstTwice(tree: seq<Edge>, codes: seq<nat>)
    requires IsTree(tree) && tree != [] && |codes| == Triangle(|tree| + 1) && (|codes| > 0 ==> codes[0] == 0)
    ensures codes != [] && Decoded(codes)[0] == tree[0]
  {
    TriangleGrows(1, |tree| + 1);
    assert Triangle(1) == 0 && tree[0] == Edge(1, 0);
    DecodeCode(Edge(1, 0));
  }

  /** `gen_conn_erdos`: a tree and random other edges. The graph is connected. With two nodes or more it is simple,
    * with exactly max(M, N - 1) edges, if and only if that is less than the number of node pairs; otherwise it
    * has all pairs, and those of the tree twice. With fewer nodes it has no edge, whatever M says. */
  method GenConnErdos(rng: Xoroshiro, n: nat, m0: int) returns (ans: seq<Edge>)
    modifies rng
    ensures Downward(ans, n) && Rooted(ans, n)
    ensures NoRepeats(ans) <==> Max(m0, n - 1) < Triangle(n) || n < 2
    ensures n > 0 ==> |ans| == if Max(m0, n - 1) < Triangle(n) then Max(m0, n - 1) else n - 1 + Triangle(n)
    ensures NoRepeats(ans) && |ans| == Max(m0, n - 1) <==>
            (n >= 2 && Max(m0, n - 1) < Triangle(n)) || (n == 1 && m0 <= 0) || (n == 0 && m0 == 0)
    ensures n < 2 ==> ans == []
  {
    var m := m0;
    if m < n - 1 { m := n - 1; }
    ans := GrowTree(rng, n);
    ghost var tree := ans;
    var excluded := CodesOf(ans);
    TreeCodesAscend(ans);
    SortedOfAscending(excluded);
    excluded := Sorted(excluded);
    var toAdd, draws := rng.GetDistinct(m - (n - 1), 0, Triangle(n), excluded);
    ans := AddDecoded(ans, toAdd);
    if n == 0 {
      assert toAdd == [] && ans == [];
    } else {
      if m < Triangle(n) { NewCodes(tree, toAdd, draws, n, m); }
      ErdosEdges(tree, toAdd, n, m);
    }
  }

  lemma NewCodes(tree: seq<Edge>, codes: seq<nat>, draws: seq<nat>, n: nat, m: nat)
    requires n > 0 && IsTree(tree) && |tree| == n - 1 <= m < Triangle(n)
    requires IsSample(m - (n - 1), 0, Triangle(n), Codes(tree), draws, codes)
    ensures Sampled(tree, codes, n, m)
  {
    TreeCodesAscend(tree);
    forall i | 0 <= i < |codes|
      ensures codes[i] < Triangle(n) && codes[i] !in Codes(tree)
    {
      assert HasRank(Codes(tree), draws[i] + i, codes[i]);
    }
  }

  /** The codes drawn are new ones, or all there are. */
  ghost predicate Sampled(tree: seq<Edge>, codes: seq<nat>, n: nat, m: nat) {
    if m < Triangle(n) then
      && |codes| == m - |tree| && Ascending(codes)
      && forall i :: 0 <= i < |codes| ==> codes[i] < Triangle(n) && codes[i] !in Codes(tree)
    else
      |codes| == Triangle(n) && forall i :: 0 <= i < |codes| ==> codes[i] == i
  }

  lemma ErdosEdges(tree: seq<Edge>, codes: seq<nat>, n: nat, m: nat)
    requires n > 0 && IsTree(tree) && |tree| == n - 1 <= m && Sampled(tree, codes, n, m)
    ensures var ans := tree + Decoded(codes);
      && Downward(ans, n) && Rooted(ans, n)
      && (NoRepeats(ans) <==> m < Triangle(n) || n == 1)
      && |ans| == (if m < Triangle(n) then m else n - 1 + Triangle(n))
      && (n == 1 ==> ans == [] && Triangle(n) == 0)
  {
    if m < Triangle(n) {
      FreshEdges(tree, codes, n);
    } else {
      AllEdges(tree, codes, n);
    }
    TreeIsRooted(tree, tree + Decoded(codes), n);
    assert Triangle(1) == 0;
  }

  /** Two nodes and one edge: it comes twice. */
  method EdgeTwice(rng: Xoroshiro) returns (ans: seq<Edge>)
    modifies rng
    ensures ans == [Edge(1, 0), Edge(1, 0)]
  {
    ans := GenConnErdos(rng, 2, 1);
    assert Triangle(1) == 0 && Triangle(2) == 1;
    assert ans[0] in ans && ans[1] in ans;
  }

  method GrowTree(rng: Xoroshiro, n: nat) returns (ans: seq<Edge>)
    modifies rng
    ensures IsTree(ans) && |ans| == if n == 0 then 0 else n - 1
    ensures rng.View() == After(old(rng.View()), |ans|)
    ensures forall i {:trigger ans[i]} :: 0 <= i < |ans| ==> ans[i].second == Output(After(old(rng.View()), i)) % (i + 1)
  {
    ans := [];
    var i := 1;
    while i < n
      invariant rng.View() == After(old(rng.View()), |ans|)
      invariant forall j {:trigger ans[j]} :: 0 <= j < |ans| ==> ans[j].second == Output(After(old(rng.View()), j)) % (j + 1)
      invariant |ans| == i - 1 && (n > 0 ==> i <= n) && (n == 0 ==> i == 1) && IsTree(ans)
    {
      var other := rng.Between(0, i);
      ans := ans + [Edge(i, other)];
      i := i + 1;
    }
  }

  method CodesOf(edges: seq<Edge>) returns (codes: seq<nat>)
    ensures codes == Codes(edges)
  {
    codes := [];
    for i := 0 to |edges|
      invariant |codes| == i && forall j :: 0 <= j < i ==> codes[j] == Code(edges[j])
    {
      codes := codes + [Code(edges[i])];
    }
  }

  method AddDecoded(edges: seq<Edge>, codes: seq<nat>) returns (ans: seq<Edge>)
    ensures ans == edges + Decoded(codes)
  {
    ans := edges;
    for i := 0 to |codes|
      invariant |ans| == |edges| + i && edges <= ans
      invariant forall j :: 0 <= j < i ==> ans[|edges| + j] == Decode(codes[j])
    {
      ans := ans + [Decode(codes[i])];
    }
  }

  lemma TreeIsRooted(tree: seq<Edge>, edges: seq<Edge>, n: nat)
    requires IsTree(tree) && |tree| == n - 1 && tree <= edges
    ensures Rooted(edges, n) && Downward(tree, n)
  {
    forall i | 1 <= i < n
      ensures Descends(edges, i)
    {
      assert tree[i - 1] == edges[i - 1];
    }
  }

  // ---------------------------------------------------------------- preferential attachment

  /** What `std::unique` keeps: the first of each run of equal numbers. */
  function Unique(xs: seq<nat>): seq<nat> {
    if |xs| <= 1 then xs
    else if xs[|xs| - 2] == xs[|xs| - 1] then Unique(xs[..|xs| - 1])
    else Unique(xs[..|xs| - 1]) + [xs[|xs| - 1]]
  }

  lemma {:induction false} UniqueOfSorted(xs: seq<nat>)
    requires NonDescending(xs)
    ensures Ascending(Unique(xs)) && forall x :: x in Unique(xs) <==> x in xs
    ensures xs != [] ==> Unique(xs) != [] && Unique(xs)[|Unique(xs)| - 1] == xs[|xs| - 1]
  {
    if |xs| > 1 {
      var front, last := xs[..|xs| - 1], xs[|xs| - 1];
      UniqueOfSorted(front);
      assert xs == front + [last];
      assert front[|front| - 1] <= last;
    }
  }

  /** x is an end of one of the edges picked. */
  ghost predicate IsEnd(edges: seq<Edge>, picks: seq<nat>, x: nat) {
    exists p :: p in picks && p < |edges| && (x == edges[p].first || x == edges[p].second)
  }

  /** The ends of the picked edges, sorted and once each. */
  method EndsOf(edges: seq<Edge>, picks: seq<nat>) returns (neighs: seq<nat>)
    requires forall p :: p in picks ==> p < |edges|
    ensures Ascending(neighs) && forall x :: x in neighs <==> IsEnd(edges, picks, x)
  {
    neighs := [];
    for i := 0 to |picks|
      invariant forall x :: x in neighs <==> IsEnd(edges, picks[..i], x)
    {
      ghost var before := neighs;
      assert picks[i] in picks;
      var e := edges[picks[i]];
      neighs := neighs + [e.first] + [e.second];
      forall x
        ensures x in neighs <==> IsEnd(edges, picks[..i + 1], x)
      {
        OneMorePick(edges, picks, i, x);
        assert x in neighs <==> x in before || x == e.first || x == e.second;
      }
    }
    assert picks[..|picks|] == picks;
    ghost var all := neighs;
    SortedSorts(neighs);
    SameMembers(Sorted(neighs), neighs);
    neighs := Sorted(neighs);
    UniqueOfSorted(neighs);
    neighs := Unique(neighs);
  }

  lemma OneMorePick(edges: seq<Edge>, picks: seq<nat>, i: nat, x: nat)
    requires i < |picks| && picks[i] < |edges|
    ensures IsEnd(edges, picks[..i + 1], x) <==>
            IsEnd(edges, picks[..i], x) || x == edges[picks[i]].first || x == edges[picks[i]].second
  {
    assert picks[..i + 1] == picks[..i] + [picks[i]];
    assert picks[i] in picks[..i + 1];
  }

  lemma SameMembers(xs: seq<nat>, ys: seq<nat>)
    requires multiset(xs) == multiset(ys)
    ensures forall x :: x in xs <==> x in ys
  {
    forall x
      ensures x in xs <==> x in ys
    {
      assert x in multiset(xs) <==> x in multiset(ys);
    }
  }

  /** The edges from node i to the given nodes. */
  function Fan(i: nat, to: seq<nat>): seq<Edge> {
    seq(|to|, j requires 0 <= j < |to| => Edge(i, to[j]))
  }

  /** Attaching a new node keeps the list simple, and rooted if it gets an edge. */
  lemma Attach(edges: seq<Edge>, i: nat, to: seq<nat>)
    requires Downward(edges, i) && NoRepeats(edges) && Ascending(to) && forall x :: x in to ==> x < i
    ensures Downward(edges + Fan(i, to), i + 1) && NoRepeats(edges + Fan(i, to))
    ensures Rooted(edges, i) && to != [] ==> Rooted(edges + Fan(i, to), i + 1)
  {
    var all := edges + Fan(i, to);
    forall e | e in all
      ensures e.second < e.first < i + 1
    {
      assert e in edges || e in Fan(i, to);
      if e !in edges {
        var j :| 0 <= j < |to| && Fan(i, to)[j] == e;
        assert to[j] in to;
      }
    }
    forall a, b | 0 <= a < b < |all|
      ensures all[a] != all[b]
    {
      if a < |edges| <= b { assert all[a] in edges && all[a].first < i; }
      if |edges| <= a { assert to[a - |edges|] < to[b - |edges|]; }
    }
    if Rooted(edges, i) && to != [] {
      forall k | 1 <= k < i + 1
        ensures Descends(all, k)
      {
        if k < i {
          assert Descends(edges, k);
          var e :| e in edges && e.first == k && e.second < k;
          assert e in all;
        } else {
          assert Fan(i, to)[0] in all && to[0] in to;
        }
      }
    }
  }

  lemma FanAdds(edges: seq<Edge>, i: nat, to: seq<nat>)
    requires Downward(edges, i)
    ensures edges <= edges + Fan(i, to)
    ensures forall x :: Edge(i, x) in edges + Fan(i, to) <==> x in to
    ensures forall e :: e in edges + Fan(i, to) && e.first != i ==> e in edges
  {
    var ans := edges + Fan(i, to);
    forall x
      ensures Edge(i, x) in ans <==> x in to
    {
      if x in to {
        var j :| 0 <= j < |to| && to[j] == x;
        assert ans[|edges| + j] == Edge(i, x);
      }
    }
  }

  method AddFan(edges: seq<Edge>, i: nat, to: seq<nat>) returns (ans: seq<Edge>)
    ensures ans == edges + Fan(i, to)
  {
    ans := edges;
    for j := 0 to |to|
      invariant |ans| == |edges| + j && edges <= ans
      invariant forall l :: 0 <= l < j ==> ans[|edges| + l] == Edge(i, to[l])
    {
      ans := ans + [Edge(i, to[j])];
    }
  }

  /** One round of `gen_barabasi_albert`: node i gets edges to the ends of K distinct edges, or of all if
    * there are not that many. */
  method AttachNode(rng: Xoroshiro, edges: seq<Edge>, i: nat, k: nat) returns (ans: seq<Edge>, ghost picks: seq<nat>)
    requires Downward(edges, i) && NoRepeats(edges) && edges != []
    modifies rng
    ensures |picks| == (if k < |edges| then k else |edges|) && Ascending(picks)
    ensures forall p :: p in picks ==> p < |edges|
    ensures edges <= ans && Downward(ans, i + 1) && NoRepeats(ans)
    ensures forall x :: Edge(i, x) in ans <==> IsEnd(edges, picks, x)
    ensures forall e :: e in ans && e.first != i ==> e in edges
    ensures k > 0 && Rooted(edges, i) ==> Rooted(ans, i + 1)
    ensures k == 0 ==> ans == edges
  {
    var idxs, _ := rng.GetDistinct(k, 0, |edges|, []);
    picks := idxs;
    var neighs := EndsOf(edges, idxs);
    forall x | x in neighs
      ensures x < i
    {
      assert IsEnd(edges, picks, x);
    }
    if picks != [] {
      assert IsEnd(edges, picks, edges[picks[0]].first);
    }
    Attach(edges, i, neighs);
    ans := AddFan(edges, i, neighs);
    FanAdds(edges, i, neighs);
    assert neighs != [] ==> IsEnd(edges, picks, neighs[0]) by {
      assert neighs != [] ==> neighs[0] in neighs;
    }
  }

  /** A C++ `int`. */
  type Int = x: int | -0x8000_0000 <= x < 0x8000_0000

  /** Its conversion to an unsigned word of 64 bits. */
  function Unsigned(x: Int): nat { if x < 0 then x + 0x1_0000_0000_0000_0000 else x }

  /** `gen_barabasi_albert`: the graph is simple, and every node has an edge down if and only if K is not 0 or there
    * is no node to attach. A negative K is as good as a very large one. The edge between nodes 0 and 1 is there
    * even if these nodes are not. */
  method GenBarabasiAlbert(rng: Xoroshiro, n: nat, k: Int) returns (ans: seq<Edge>)
    modifies rng
    ensures Downward(ans, Max(n, 2)) && NoRepeats(ans)
    ensures Rooted(ans, Max(n, 2)) <==> k != 0 || n <= 2
    ensures k == 0 ==> ans == [Edge(1, 0)]
    ensures Edge(1, 0) in ans && (Downward(ans, n) <==> n >= 2)
  {
    ans := [Edge(1, 0)];
    assert Descends(ans, 1) by { assert Edge(1, 0) in ans; }
    for i := 2 to Max(n, 2)
      invariant Downward(ans, i) && NoRepeats(ans) && Edge(1, 0) in ans
      invariant k != 0 || i == 2 ==> Rooted(ans, i)
      invariant k == 0 ==> ans == [Edge(1, 0)]
    {
      var grown, _ := AttachNode(rng, ans, i, Unsigned(k));
      ans := grown;
    }
    if k == 0 && n > 2 {
      assert !Descends(ans, 2);
    }
  }
}

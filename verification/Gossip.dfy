/**
  A network of honest TinyCoin nodes.  A message is in flight from the moment it is sent until some
  worker handles it, and messages are handled in any order, so every delay is covered.  Workers may
  interleave on one node: a step is one critical section, and the children it sets free are handled
  by later steps.  Links do not fail.
*/
module Gossip {
  import opened TinyChain

  datatype Message = Message(from: nat, to: nat, block: Block)

  /** `links[n]` are the neighbours of node n, to which it forwards. */
  datatype Network = Network(rules: seq<Rules>, links: seq<set<nat>>)

  /** `got` records the blocks a node got, by id; `todo` the children it still has to handle. */
  datatype Node = Node(ledger: Ledger, got: map<nat, Block>, todo: multiset<Block>)

  /** `mined` records every block mined so far, by id. */
  datatype State = State(nodes: seq<Node>, mined: map<nat, Block>, inFlight: multiset<Message>)

  datatype Action =
    | Deliver(message: Message)
    | HandleChild(node: nat, block: Block)
    | Mine(node: nat, block: Block)

  ghost predicate Undirected(net: Network) {
    && |net.links| == |net.rules|
    && forall n: nat, m: nat {:trigger Neighbours(net, n, m)} ::
         n < |net.links| && m in net.links[n] ==> Neighbours(net, n, m) && Neighbours(net, m, n)
  }

  ghost predicate Neighbours(net: Network, n: nat, m: nat) {
    n < |net.links| && m < |net.links| && m in net.links[n]
  }

  /** One message to every neighbour. */
  ghost function Fan(net: Network, n: nat, b: Block): set<Message>
    requires n < |net.links|
  {
    set m | m in net.links[n] :: Message(n, m, b)
  }

  ghost predicate Ready(net: Network, s: State, n: nat, b: Block) {
    n < |s.nodes| == |net.rules| == |net.links| && Sound(s.nodes[n].ledger) && WellFormed(b)
  }

  /** `Ready` makes the step well defined; of a delivery and of a child it holds in every run (NothingIsStuck). */
  ghost predicate Enabled(net: Network, s: State, a: Action) {
    match a
    case Deliver(m) => m in s.inFlight && Ready(net, s, m.to, m.block)
    case HandleChild(n, b) => n < |s.nodes| && b in s.nodes[n].todo && Ready(net, s, n, b)
    case Mine(n, b) =>
      && Ready(net, s, n, b)
      && b.id !in s.mined && Attached(s.nodes[n].ledger, b.parent)
  }

  /** The node as the critical section leaves it. */
  ghost function Handled(net: Network, s: State, n: nat, b: Block, todo: multiset<Block>): Node
    requires Ready(net, s, n, b)
  {
    var o := Critical(net.rules[n], s.nodes[n].ledger, b);
    Node(o.ledger, s.nodes[n].got[b.id := b], todo + multiset(o.children))
  }

  /** The messages an action puts in flight: a new block is forwarded, a mined one always sent. */
  ghost function Sends(net: Network, s: State, a: Action): set<Message>
    requires Enabled(net, s, a)
  {
    match a
    case Deliver(m) =>
      if Critical(net.rules[m.to], s.nodes[m.to].ledger, m.block).forward then Fan(net, m.to, m.block) else {}
    case HandleChild(n, b) => {}
    case Mine(n, b) => Fan(net, n, b)
  }

  ghost function Apply(net: Network, s: State, a: Action): State
    requires Enabled(net, s, a)
  {
    match a
    case Deliver(m) =>
      State(s.nodes[m.to := Handled(net, s, m.to, m.block, s.nodes[m.to].todo)], s.mined,
            s.inFlight - multiset{m} + multiset(Sends(net, s, a)))
    case HandleChild(n, b) =>
      s.(nodes := s.nodes[n := Handled(net, s, n, b, s.nodes[n].todo - multiset{b})])
    case Mine(n, b) =>
      State(s.nodes[n := Handled(net, s, n, b, s.nodes[n].todo)], s.mined[b.id := b],
            s.inFlight + multiset(Sends(net, s, a)))
  }

  ghost predicate IsInit(net: Network, s: State) {
    && |s.nodes| == |net.rules| == |net.links|
    && s.mined == map[] && s.inFlight == multiset{}
    && forall n :: 0 <= n < |s.nodes| ==> IsFresh(s.nodes[n])
  }

  ghost predicate IsFresh(node: Node) {
    && node.got == map[] && node.todo == multiset{}
    && exists id: nat, balance: real :: 0 < id < PARKED && node.ledger == Fresh(id, balance)
  }

  ghost predicate IsRun(net: Network, ss: seq<State>, acts: seq<Action>) {
    && Undirected(net)
    && |ss| == |acts| + 1
    && IsInit(net, ss[0])
    && forall i :: 0 <= i < |acts| ==> Enabled(net, ss[i], acts[i]) && ss[i + 1] == Apply(net, ss[i], acts[i])
  }

  // ---------------------------------------------------------------- the invariant

  ghost predicate NodeInv(node: Node, mined: map<nat, Block>) {
    && Accounts(node.ledger, node.got, node.todo)
    && (forall i :: i in node.got ==> i in mined && mined[i] == node.got[i])
  }

  /** Mined blocks have their ancestry mined. */
  ghost predicate MinedInv(mined: map<nat, Block>) {
    forall i :: i in mined ==> WellFormed(mined[i]) && mined[i].id == i && AncestryReceived(mined, i)
  }

  ghost predicate InFlightInv(net: Network, s: State) {
    forall m :: m in s.inFlight ==> MessageInv(net, s.mined, m)
  }

  ghost predicate MessageInv(net: Network, mined: map<nat, Block>, m: Message) {
    Neighbours(net, m.from, m.to) && m.block.id in mined && mined[m.block.id] == m.block
  }

  /** A block a node has is, for each neighbour, had by it or on its way to it. */
  ghost predicate Flooded(net: Network, s: State, n: nat, m: nat, i: nat) {
    n < |s.nodes| && m < |s.nodes| && i in s.mined && i in s.nodes[n].got ==>
      i in s.nodes[m].got || Message(n, m, s.mined[i]) in s.inFlight
  }

  ghost predicate FloodInv(net: Network, s: State) {
    forall n: nat, m: nat, i {:trigger Flooded(net, s, n, m, i)} :: Neighbours(net, n, m) ==> Flooded(net, s, n, m, i)
  }

  ghost predicate HadBySome(s: State, i: nat) {
    exists n :: 0 <= n < |s.nodes| && i in s.nodes[n].got
  }

  ghost predicate Inv(net: Network, s: State) {
    && |s.nodes| == |net.rules| == |net.links|
    && (forall n {:trigger NodeInv(s.nodes[n], s.mined)} :: 0 <= n < |s.nodes| ==> NodeInv(s.nodes[n], s.mined))
    && MinedInv(s.mined)
    && InFlightInv(net, s)
    && FloodInv(net, s)
    && (forall i {:trigger HadBySome(s, i)} :: i in s.mined ==> HadBySome(s, i))
  }

  lemma InitInv(net: Network, s: State)
    requires IsInit(net, s)
    ensures Inv(net, s)
  {
    forall n | 0 <= n < |s.nodes| ensures NodeInv(s.nodes[n], s.mined) {
      assert IsFresh(s.nodes[n]);
      var id: nat, balance: real :| 0 < id < PARKED && s.nodes[n].ledger == Fresh(id, balance);
      FreshAccounts(id, balance);
    }
  }

  /** One more child to handle does no harm if its parent is attached. */
  lemma AccountsWithMore(l: Ledger, got: map<nat, Block>, todo: multiset<Block>, x: Block)
    requires Accounts(l, got, todo) && Passable(l, got, x)
    ensures Accounts(l, got, todo + multiset{x})
  {
    var todo' := todo + multiset{x};
    forall i | i in got ensures GotInv(l, got, todo', i) {
      assert GotInv(l, got, todo, i);
    }
    forall y | y in todo' ensures Passable(l, got, y) {
      assert y in todo ==> Passable(l, got, y);
    }
  }

  lemma AttachedStays(rules: Rules, l: Ledger, b: Block, i: nat)
    requires Sound(l) && WellFormed(b) && Attached(l, i)
    ensures Attached(Critical(rules, l, b).ledger, i)
  {
    if AlreadyAttached(l, b) {
    } else if !Attached(l, b.parent) {
      ParkIsSound(l, b);
      assert Attached(Park(l, b), i);
    } else {
      AttachGrows(l, b);
      assert Attached(Attach(l, b), i);
    }
  }

  /** Any worker may take any block at any time: the accounts stay in order. */
  lemma HandledInv(net: Network, s: State, n: nat, b: Block, todo: multiset<Block>, mined: map<nat, Block>)
    requires Ready(net, s, n, b) && Accounts(s.nodes[n].ledger, s.nodes[n].got, s.nodes[n].todo)
    requires todo == s.nodes[n].todo || todo == s.nodes[n].todo - multiset{b}
    requires forall i :: i in s.nodes[n].got ==> i in mined && mined[i] == s.nodes[n].got[i]
    requires b.id in mined && mined[b.id] == b
    ensures NodeInv(Handled(net, s, n, b, todo), mined)
    ensures Critical(net.rules[n], s.nodes[n].ledger, b).forward <==> b.id !in s.nodes[n].got
  {
    var node := s.nodes[n];
    CriticalKeepsAccounts(net.rules[n], node.ledger, node.got, node.todo, b);
    var o := Critical(net.rules[n], node.ledger, b);
    var rest := node.todo - multiset{b};
    if b in node.todo && todo == node.todo {
      assert Passable(node.ledger, node.got, b);
      AttachedStays(net.rules[n], node.ledger, b, b.parent);
      AccountsWithMore(o.ledger, node.got[b.id := b], rest + multiset(o.children), b);
      assert rest + multiset(o.children) + multiset{b} == todo + multiset(o.children);
    } else {
      assert rest == todo;
    }
  }

  // ---------------------------------------------------------------- the steps

  /** Only node n changes: it gets block b, and what was on its way to others still is. */
  lemma NodesKept(net: Network, s: State, n: nat, node: Node, mined: map<nat, Block>)
    requires Inv(net, s) && n < |s.nodes|
    requires NodeInv(node, mined)
    requires forall i :: i in s.mined ==> i in mined && mined[i] == s.mined[i]
    ensures forall k {:trigger NodeInv(s.nodes[n := node][k], mined)} ::
      0 <= k < |s.nodes| ==> NodeInv(s.nodes[n := node][k], mined)
  {
    var nodes := s.nodes[n := node];
    forall k | 0 <= k < |s.nodes| ensures NodeInv(nodes[k], mined) {
      assert NodeInv(s.nodes[k], s.mined);
    }
  }

  lemma DeliverKeepsFlood(net: Network, s: State, m: Message)
    requires Undirected(net) && Inv(net, s) && Enabled(net, s, Deliver(m))
    requires Critical(net.rules[m.to], s.nodes[m.to].ledger, m.block).forward <==>
             m.block.id !in s.nodes[m.to].got
    ensures FloodInv(net, Apply(net, s, Deliver(m)))
  {
    var s' := Apply(net, s, Deliver(m));
    assert MessageInv(net, s.mined, m);
    forall x: nat, y: nat, i | Neighbours(net, x, y) ensures Flooded(net, s', x, y, i) {
      assert Flooded(net, s, x, y, i);
      if i in s.mined && x < |s.nodes| && i in s'.nodes[x].got && !(i in s.nodes[x].got) {
        assert x == m.to && i == m.block.id;
        assert Message(x, y, m.block) in Fan(net, x, m.block);
      }
    }
  }

  lemma StepDeliver(net: Network, s: State, m: Message)
    requires Undirected(net) && Inv(net, s) && Enabled(net, s, Deliver(m))
    ensures Inv(net, Apply(net, s, Deliver(m)))
  {
    var s' := Apply(net, s, Deliver(m));
    var n, b := m.to, m.block;
    assert MessageInv(net, s.mined, m) && NodeInv(s.nodes[n], s.mined);
    HandledInv(net, s, n, b, s.nodes[n].todo, s.mined);
    NodesKept(net, s, n, Handled(net, s, n, b, s.nodes[n].todo), s.mined);
    DeliverKeepsFlood(net, s, m);
    forall x | x in s'.inFlight ensures MessageInv(net, s'.mined, x) {
      if x in Fan(net, n, b) {
        assert Neighbours(net, n, x.to);
      }
    }
    SomeKeepHaving(s, s', n);
  }

  lemma SomeKeepHaving(s: State, s': State, n: nat)
    requires n < |s.nodes| == |s'.nodes|
    requires forall k :: 0 <= k < |s.nodes| && k != n ==> s'.nodes[k] == s.nodes[k]
    requires forall i :: i in s.nodes[n].got ==> i in s'.nodes[n].got
    ensures forall i {:trigger HadBySome(s', i)} :: HadBySome(s, i) ==> HadBySome(s', i)
  {
    forall i | HadBySome(s, i) ensures HadBySome(s', i) {
      var k :| 0 <= k < |s.nodes| && i in s.nodes[k].got;
      assert i in s'.nodes[k].got;
    }
  }

  lemma StepHandleChild(net: Network, s: State, n: nat, b: Block)
    requires Undirected(net) && Inv(net, s) && Enabled(net, s, HandleChild(n, b))
    ensures Inv(net, Apply(net, s, HandleChild(n, b)))
  {
    var s' := Apply(net, s, HandleChild(n, b));
    assert NodeInv(s.nodes[n], s.mined);
    assert Passable(s.nodes[n].ledger, s.nodes[n].got, b);
    var todo := s.nodes[n].todo - multiset{b};
    HandledInv(net, s, n, b, todo, s.mined);
    NodesKept(net, s, n, Handled(net, s, n, b, todo), s.mined);
    assert s'.nodes[n].got == s.nodes[n].got;
    forall x: nat, y: nat, i | Neighbours(net, x, y) ensures Flooded(net, s', x, y, i) {
      assert Flooded(net, s, x, y, i);
    }
    SomeKeepHaving(s, s', n);
  }

  lemma MineKeepsFlood(net: Network, s: State, n: nat, b: Block)
    requires Undirected(net) && Inv(net, s) && Enabled(net, s, Mine(n, b))
    ensures FloodInv(net, Apply(net, s, Mine(n, b)))
  {
    var s' := Apply(net, s, Mine(n, b));
    forall x: nat, y: nat, i | Neighbours(net, x, y) ensures Flooded(net, s', x, y, i) {
      assert Flooded(net, s, x, y, i);
      if x < |s.nodes| {
        assert NodeInv(s.nodes[x], s.mined);
      }
      if x == n && i == b.id {
        assert Message(n, y, b) in Fan(net, n, b);
      }
    }
  }

  lemma {:induction false} AncestryGrows(mined: map<nat, Block>, b: Block, i: nat)
    requires AncestryReceived(mined, i) && b.id !in mined
    ensures AncestryReceived(mined[b.id := b], i)
    decreases i
  {
    if i > 0 {
      AncestryGrows(mined, b, mined[i].parent);
    }
  }

  /** What a node attached it got with all its ancestors, so they were mined. */
  lemma {:induction false} AttachedWasMined(node: Node, mined: map<nat, Block>, i: nat)
    requires NodeInv(node, mined) && Attached(node.ledger, i)
    ensures AncestryReceived(mined, i)
    decreases i
  {
    if i > 0 {
      assert Rooted(node.ledger, i) && Known(node.ledger, i);
      assert GotInv(node.ledger, node.got, node.todo, i);
      AttachedWasMined(node, mined, node.got[i].parent);
    }
  }

  lemma MineKeepsMined(net: Network, s: State, n: nat, b: Block)
    requires Inv(net, s) && Enabled(net, s, Mine(n, b))
    ensures MinedInv(s.mined[b.id := b])
  {
    var mined := s.mined[b.id := b];
    assert NodeInv(s.nodes[n], s.mined);
    AttachedWasMined(s.nodes[n], s.mined, b.parent);
    AncestryGrows(s.mined, b, b.parent);
    forall i | i in mined ensures WellFormed(mined[i]) && mined[i].id == i && AncestryReceived(mined, i) {
      if i in s.mined {
        AncestryGrows(s.mined, b, i);
      }
    }
  }

  lemma MineKeepsInFlight(net: Network, s: State, n: nat, b: Block)
    requires Undirected(net) && Inv(net, s) && Enabled(net, s, Mine(n, b))
    ensures InFlightInv(net, Apply(net, s, Mine(n, b)))
  {
    var s' := Apply(net, s, Mine(n, b));
    forall x | x in s'.inFlight ensures MessageInv(net, s'.mined, x) {
      if x in s.inFlight {
        assert MessageInv(net, s.mined, x);
      } else {
        assert Neighbours(net, n, x.to);
      }
    }
  }

  lemma StepMine(net: Network, s: State, n: nat, b: Block)
    requires Undirected(net) && Inv(net, s) && Enabled(net, s, Mine(n, b))
    ensures Inv(net, Apply(net, s, Mine(n, b)))
  {
    var s' := Apply(net, s, Mine(n, b));
    assert NodeInv(s.nodes[n], s.mined);
    HandledInv(net, s, n, b, s.nodes[n].todo, s'.mined);
    NodesKept(net, s, n, Handled(net, s, n, b, s.nodes[n].todo), s'.mined);
    MineKeepsFlood(net, s, n, b);
    MineKeepsInFlight(net, s, n, b);
    MineKeepsMined(net, s, n, b);
    MinedIsHad(net, s, n, b);
  }

  /** The miner itself has the block it mined. */
  lemma MinedIsHad(net: Network, s: State, n: nat, b: Block)
    requires Enabled(net, s, Mine(n, b))
    requires forall i {:trigger HadBySome(s, i)} :: i in s.mined ==> HadBySome(s, i)
    ensures var s' := Apply(net, s, Mine(n, b));
      forall i {:trigger HadBySome(s', i)} :: i in s'.mined ==> HadBySome(s', i)
  {
    var s' := Apply(net, s, Mine(n, b));
    SomeKeepHaving(s, s', n);
    forall i | i in s'.mined ensures HadBySome(s', i) {
      if i == b.id {
        assert i in s'.nodes[n].got;
      } else {
        assert HadBySome(s, i);
      }
    }
  }

  lemma {:induction false} RunInv(net: Network, ss: seq<State>, acts: seq<Action>, i: nat)
    requires IsRun(net, ss, acts) && i < |ss|
    ensures Inv(net, ss[i])
  {
    if i == 0 {
      InitInv(net, ss[0]);
    } else {
      RunInv(net, ss, acts, i - 1);
      assert Enabled(net, ss[i - 1], acts[i - 1]) && ss[i - 1 + 1] == Apply(net, ss[i - 1], acts[i - 1]);
      match acts[i - 1]
      case Deliver(m) => StepDeliver(net, ss[i - 1], m);
      case HandleChild(n, b) => StepHandleChild(net, ss[i - 1], n, b);
      case Mine(n, b) => StepMine(net, ss[i - 1], n, b);
    }
  }

  // ---------------------------------------------------------------- each block crosses each link once

  lemma {:induction false} GotStays(net: Network, ss: seq<State>, acts: seq<Action>, i: nat, j: nat, n: nat, id: nat)
    requires IsRun(net, ss, acts) && i <= j < |ss|
    requires n < |ss[i].nodes| && id in ss[i].nodes[n].got
    ensures n < |ss[j].nodes| && id in ss[j].nodes[n].got
    decreases j - i
  {
    if i < j {
      assert Enabled(net, ss[i], acts[i]) && ss[i + 1] == Apply(net, ss[i], acts[i]);
      GotStays(net, ss, acts, i + 1, j, n, id);
    }
  }

  /** Sending a block means not having had it before, and having it from then on. */
  lemma SendingMeansNew(net: Network, ss: seq<State>, acts: seq<Action>, i: nat, m: Message)
    requires IsRun(net, ss, acts) && i < |acts|
    requires Enabled(net, ss[i], acts[i]) && m in Sends(net, ss[i], acts[i])
    ensures m.from < |ss[i].nodes| == |ss[i + 1].nodes|
    ensures m.block.id !in ss[i].nodes[m.from].got && m.block.id in ss[i + 1].nodes[m.from].got
  {
    RunInv(net, ss, acts, i);
    var s := ss[i];
    assert ss[i + 1] == Apply(net, s, acts[i]);
    match acts[i]
    case Deliver(d) =>
      assert MessageInv(net, s.mined, d) && NodeInv(s.nodes[d.to], s.mined);
      HandledInv(net, s, d.to, d.block, s.nodes[d.to].todo, s.mined);
    case HandleChild(n, b) =>
    case Mine(n, b) => assert NodeInv(s.nodes[n], s.mined);
  }

  /** In every run each block crosses each directed link at most once. */
  lemma EachLinkCrossedOnce(net: Network, ss: seq<State>, acts: seq<Action>, i: nat, j: nat, m: Message)
    requires IsRun(net, ss, acts) && i < j < |acts|
    requires Enabled(net, ss[i], acts[i]) && Enabled(net, ss[j], acts[j])
    ensures !(m in Sends(net, ss[i], acts[i]) && m in Sends(net, ss[j], acts[j]))
  {
    if m in Sends(net, ss[i], acts[i]) && m in Sends(net, ss[j], acts[j]) {
      SendingMeansNew(net, ss, acts, i, m);
      SendingMeansNew(net, ss, acts, j, m);
      GotStays(net, ss, acts, i + 1, j, m.from, m.block.id);
    }
  }

  // ---------------------------------------------------------------- convergence

  ghost predicate IsPath(net: Network, path: seq<nat>, a: nat, b: nat) {
    && path != [] && path[0] == a && path[|path| - 1] == b
    && forall k :: 0 <= k < |path| - 1 ==> Neighbours(net, path[k], path[k + 1])
  }

  ghost predicate Linked(net: Network, a: nat, b: nat) {
    exists path :: IsPath(net, path, a, b)
  }

  ghost predicate Connected(net: Network) {
    forall a: nat, b: nat {:trigger Linked(net, a, b)} :: a < |net.links| && b < |net.links| ==> Linked(net, a, b)
  }

  /** Nothing in flight and no child left to handle. */
  ghost predicate AtRest(s: State) {
    s.inFlight == multiset{} && forall n :: 0 <= n < |s.nodes| ==> s.nodes[n].todo == multiset{}
  }

  lemma {:induction false} HadAlongPath(net: Network, s: State, path: seq<nat>, a: nat, b: nat, i: nat)
    requires Inv(net, s) && AtRest(s) && IsPath(net, path, a, b)
    requires a < |s.nodes| && i in s.nodes[a].got
    ensures b < |s.nodes| && i in s.nodes[b].got
    decreases |path|
  {
    if |path| > 1 {
      assert NodeInv(s.nodes[a], s.mined);
      assert Neighbours(net, path[0], path[1]) && Flooded(net, s, path[0], path[1], i);
      var rest := path[1..];
      assert IsPath(net, rest, path[1], b) by {
        forall k | 0 <= k < |rest| - 1 ensures Neighbours(net, rest[k], rest[k + 1]) {
          assert Neighbours(net, path[k + 1], path[k + 1 + 1]);
        }
      }
      HadAlongPath(net, s, rest, path[1], b, i);
    }
  }

  lemma EveryoneGotEverything(net: Network, s: State, n: nat)
    requires Inv(net, s) && AtRest(s) && Connected(net) && n < |s.nodes|
    ensures s.nodes[n].got == s.mined
  {
    assert NodeInv(s.nodes[n], s.mined);
    forall i | i in s.mined ensures i in s.nodes[n].got {
      assert HadBySome(s, i);
      var k :| 0 <= k < |s.nodes| && i in s.nodes[k].got;
      assert Linked(net, k, n);
      var path :| IsPath(net, path, k, n);
      HadAlongPath(net, s, path, k, n, i);
    }
  }

  /**
    Gossip converges: once a connected network is at rest, every node has attached every mined block,
    has no orphan left, and has a head as long as everybody else's.
  */
  lemma GossipConverges(net: Network, ss: seq<State>, acts: seq<Action>, i: nat, n: nat, k: nat, b: nat)
    requires IsRun(net, ss, acts) && i < |ss| && AtRest(ss[i]) && Connected(net)
    requires n < |ss[i].nodes| && k < |ss[i].nodes|
    ensures var l, h := ss[i].nodes[n].ledger, ss[i].nodes[k].ledger;
      && (b in ss[i].mined ==> Attached(l, b))
      && (Known(l, b) ==> Attached(l, b))
      && l.head < |l.lengths| && h.head < |h.lengths| && l.lengths[l.head] == h.lengths[h.head]
  {
    var s := ss[i];
    RunInv(net, ss, acts, i);
    EveryoneGotEverything(net, s, n);
    EveryoneGotEverything(net, s, k);
    assert NodeInv(s.nodes[n], s.mined) && NodeInv(s.nodes[k], s.mined);
    AttachedIffAncestryReceived(s.nodes[n].ledger, s.mined, b);
    OrderDoesNotMatter(s.nodes[n].ledger, s.nodes[k].ledger, s.mined, b);
  }

  // ---------------------------------------------------------------- progress

  /** In every run every message in flight can be delivered and every child be handled. */
  lemma NothingIsStuck(net: Network, ss: seq<State>, acts: seq<Action>, i: nat)
    requires IsRun(net, ss, acts) && i < |ss|
    ensures forall m :: m in ss[i].inFlight ==> Enabled(net, ss[i], Deliver(m))
    ensures forall n: nat, b :: n < |ss[i].nodes| && b in ss[i].nodes[n].todo ==>
              Enabled(net, ss[i], HandleChild(n, b))
  {
    var s := ss[i];
    RunInv(net, ss, acts, i);
    forall m | m in s.inFlight
      ensures Enabled(net, s, Deliver(m))
    {
      assert MessageInv(net, s.mined, m);
      assert NodeInv(s.nodes[m.to], s.mined);
    }
    forall n: nat, b | n < |s.nodes| && b in s.nodes[n].todo
      ensures Enabled(net, s, HandleChild(n, b))
    {
      assert NodeInv(s.nodes[n], s.mined);
      assert Passable(s.nodes[n].ledger, s.nodes[n].got, b);
      assert GotInv(s.nodes[n].ledger, s.nodes[n].got, s.nodes[n].todo, b.id);
    }
  }

  /** A run that is not at rest can go on without anybody mining. */
  lemma Progress(net: Network, ss: seq<State>, acts: seq<Action>, i: nat) returns (a: Action)
    requires IsRun(net, ss, acts) && i < |ss| && !AtRest(ss[i])
    ensures Enabled(net, ss[i], a) && !a.Mine?
  {
    var s := ss[i];
    NothingIsStuck(net, ss, acts, i);
    if s.inFlight != multiset{} {
      var m :| m in s.inFlight;
      a := Deliver(m);
    } else {
      var n :| 0 <= n < |s.nodes| && s.nodes[n].todo != multiset{};
      var b :| b in s.nodes[n].todo;
      a := HandleChild(n, b);
    }
  }

  // ---------------------------------------------------------------- termination

  ghost function Degree(net: Network, n: nat): nat
    requires n < |net.links|
  {
    |net.links[n]|
  }

  /** The number of directed links. */
  ghost function Links(net: Network, k: nat): nat
    requires k <= |net.links|
  {
    if k == 0 then 0 else Links(net, k - 1) + Degree(net, k - 1)
  }

  /** The work a node may still cause: blocks it does not have, blocks parked, children to handle. */
  ghost function Work(net: Network, n: nat, mined: nat, node: Node): int
    requires n < |net.links|
  {
    3 * (Degree(net, n) * (mined - |node.got|)) + 2 * Waiting(node.ledger.pendingBlocks) + |node.todo|
  }

  ghost function TotalWork(net: Network, nodes: seq<Node>, mined: nat, k: nat): int
    requires k <= |nodes| == |net.links|
  {
    if k == 0 then 0 else TotalWork(net, nodes, mined, k - 1) + Work(net, k - 1, mined, nodes[k - 1])
  }

  ghost function Potential(net: Network, s: State): int
    requires |s.nodes| == |net.links|
  {
    TotalWork(net, s.nodes, |s.mined|, |s.nodes|) + 3 * |s.inFlight|
  }

  lemma {:induction false} WorkUpdate(net: Network, nodes: seq<Node>, mined: nat, k: nat, n: nat, node: Node)
    requires k <= |nodes| == |net.links| && n < |nodes|
    ensures TotalWork(net, nodes[n := node], mined, k) - TotalWork(net, nodes, mined, k) ==
      if n < k then Work(net, n, mined, node) - Work(net, n, mined, nodes[n]) else 0
  {
    if k > 0 {
      WorkUpdate(net, nodes, mined, k - 1, n, node);
    }
  }

  lemma {:induction false} WorkMined(net: Network, nodes: seq<Node>, mined: nat, k: nat)
    requires k <= |nodes| == |net.links|
    ensures TotalWork(net, nodes, mined + 1, k) == TotalWork(net, nodes, mined, k) + 3 * Links(net, k)
  {
    if k > 0 {
      WorkMined(net, nodes, mined, k - 1);
      var d, m := Degree(net, k - 1), mined - |nodes[k - 1].got|;
      assert d * (m + 1) == d * m + d;
    }
  }

  lemma FanSize(net: Network, n: nat, b: Block)
    requires n < |net.links|
    ensures |Fan(net, n, b)| == Degree(net, n)
  {
    FanSizeOf(net.links[n], n, b);
  }

  lemma {:induction false} FanSizeOf(to: set<nat>, n: nat, b: Block)
    ensures |set m | m in to :: Message(n, m, b)| == |to|
  {
    if to != {} {
      var x :| x in to;
      FanSizeOf(to - {x}, n, b);
      assert (set m | m in to :: Message(n, m, b)) ==
        (set m | m in to - {x} :: Message(n, m, b)) + {Message(n, x, b)};
    }
  }

  lemma OneLess(d: int, g: int)
    ensures d * (g - 1) == d * g - d
  {
  }

  /** What the critical section does to the work of its node. */
  lemma CriticalWork(net: Network, s: State, n: nat, b: Block, todo: multiset<Block>, mined: nat)
    requires Ready(net, s, n, b)
    ensures var node := Handled(net, s, n, b, todo);
      var isNew := b.id !in s.nodes[n].got;
      var d := if isNew then 3 * Degree(net, n) else 0;
      && Work(net, n, mined, node) + d <= Work(net, n, mined, s.nodes[n]) + |todo| - |s.nodes[n].todo| + 2
      && (Attached(s.nodes[n].ledger, b.parent) ==>
           Work(net, n, mined, node) + d <= Work(net, n, mined, s.nodes[n]) + |todo| - |s.nodes[n].todo|)
  {
    var old_, new_ := s.nodes[n], Handled(net, s, n, b, todo);
    CriticalWaiting(net.rules[n], old_.ledger, b);
    var g := mined - |old_.got|;
    assert old_.ledger == s.nodes[n].ledger;
    if b.id !in old_.got {
      assert |new_.got| == |old_.got| + 1;
      OneLess(Degree(net, n), g);
    } else {
      assert new_.got.Keys == old_.got.Keys;
      assert |new_.got| == |old_.got|;
    }
  }

  lemma DeliverWorks(net: Network, s: State, m: Message)
    requires Undirected(net) && Inv(net, s) && Enabled(net, s, Deliver(m))
    ensures Potential(net, Apply(net, s, Deliver(m))) < Potential(net, s)
  {
    var n, b := m.to, m.block;
    assert MessageInv(net, s.mined, m) && NodeInv(s.nodes[n], s.mined);
    HandledInv(net, s, n, b, s.nodes[n].todo, s.mined);
    var node := Handled(net, s, n, b, s.nodes[n].todo);
    CriticalWork(net, s, n, b, s.nodes[n].todo, |s.mined|);
    WorkUpdate(net, s.nodes, |s.mined|, |s.nodes|, n, node);
    FanSize(net, n, b);
    var s' := Apply(net, s, Deliver(m));
    assert |s'.inFlight| == |s.inFlight| - 1 + |Sends(net, s, Deliver(m))|;
  }

  lemma ChildWorks(net: Network, s: State, n: nat, b: Block)
    requires Undirected(net) && Inv(net, s) && Enabled(net, s, HandleChild(n, b))
    ensures Potential(net, Apply(net, s, HandleChild(n, b))) < Potential(net, s)
  {
    assert NodeInv(s.nodes[n], s.mined) && Passable(s.nodes[n].ledger, s.nodes[n].got, b);
    var todo := s.nodes[n].todo - multiset{b};
    CriticalWork(net, s, n, b, todo, |s.mined|);
    WorkUpdate(net, s.nodes, |s.mined|, |s.nodes|, n, Handled(net, s, n, b, todo));
    assert |todo| == |s.nodes[n].todo| - 1;
  }

  /** A new block is new to its miner, and more work for everybody else. */
  lemma MineAddsWork(net: Network, s: State, n: nat, b: Block)
    requires |s.nodes| == |net.links| && Ready(net, s, n, b)
    requires b.id !in s.nodes[n].got && Attached(s.nodes[n].ledger, b.parent)
    ensures TotalWork(net, s.nodes[n := Handled(net, s, n, b, s.nodes[n].todo)], |s.mined| + 1, |s.nodes|) +
            3 * Degree(net, n) <= TotalWork(net, s.nodes, |s.mined|, |s.nodes|) + 3 * Links(net, |net.links|)
  {
    var node := Handled(net, s, n, b, s.nodes[n].todo);
    CriticalWork(net, s, n, b, s.nodes[n].todo, |s.mined| + 1);
    WorkMined(net, s.nodes, |s.mined|, |s.nodes|);
    WorkUpdate(net, s.nodes, |s.mined| + 1, |s.nodes|, n, node);
  }

  lemma MineWorks(net: Network, s: State, n: nat, b: Block)
    requires Undirected(net) && Inv(net, s) && Enabled(net, s, Mine(n, b))
    ensures Potential(net, Apply(net, s, Mine(n, b))) <= Potential(net, s) + 3 * Links(net, |net.links|)
  {
    assert b.id !in s.nodes[n].got by { assert NodeInv(s.nodes[n], s.mined); }
    MineAddsWork(net, s, n, b);
    FanSize(net, n, b);
    MineCounts(net, s, n, b);
  }

  lemma MineCounts(net: Network, s: State, n: nat, b: Block)
    requires Enabled(net, s, Mine(n, b))
    ensures var s' := Apply(net, s, Mine(n, b));
      && |s'.mined| == |s.mined| + 1
      && |s'.inFlight| == |s.inFlight| + |Fan(net, n, b)|
      && s'.nodes == s.nodes[n := Handled(net, s, n, b, s.nodes[n].todo)]
  {
  }

  lemma {:induction false} TotalWorkNonNegative(net: Network, s: State, k: nat)
    requires Inv(net, s) && k <= |s.nodes|
    ensures TotalWork(net, s.nodes, |s.mined|, k) >= 0
  {
    if k > 0 {
      TotalWorkNonNegative(net, s, k - 1);
      var node := s.nodes[k - 1];
      assert NodeInv(node, s.mined);
      assert node.got.Keys <= s.mined.Keys;
      assert |s.mined.Keys| == |node.got.Keys| + |s.mined.Keys - node.got.Keys|;
      assert Degree(net, k - 1) * (|s.mined| - |node.got|) >= 0;
    }
  }

  ghost function Mines(acts: seq<Action>): nat {
    if acts == [] then 0 else Mines(acts[..|acts| - 1]) + if acts[|acts| - 1].Mine? then 1 else 0
  }

  lemma StepPays(net: Network, s: State, a: Action)
    requires Undirected(net) && Inv(net, s) && Enabled(net, s, a)
    ensures Inv(net, Apply(net, s, a))
    ensures Potential(net, Apply(net, s, a)) <=
      Potential(net, s) + if a.Mine? then 3 * Links(net, |net.links|) else -1
  {
    match a
    case Deliver(m) =>
      StepDeliver(net, s, m);
      DeliverWorks(net, s, m);
    case HandleChild(n, b) =>
      StepHandleChild(net, s, n, b);
      ChildWorks(net, s, n, b);
    case Mine(n, b) =>
      StepMine(net, s, n, b);
      MineWorks(net, s, n, b);
  }

  /** What mining adds to the potential less what the other actions take off it. */
  ghost function Allowance(c: int, acts: seq<Action>): int {
    if acts == [] then 0 else Allowance(c, acts[..|acts| - 1]) + if acts[|acts| - 1].Mine? then c else -1
  }

  lemma {:induction false} AllowanceCounts(c: nat, acts: seq<Action>)
    ensures Allowance(c, acts) == c * Mines(acts) - (|acts| - Mines(acts))
  {
    if acts != [] {
      var front := acts[..|acts| - 1];
      AllowanceCounts(c, front);
      assert c * (Mines(front) + 1) == c * Mines(front) + c;
    }
  }

  lemma {:induction false} PotentialPays(net: Network, ss: seq<State>, acts: seq<Action>, i: nat, c: nat)
    requires IsRun(net, ss, acts) && i < |ss| && c == 3 * Links(net, |net.links|)
    ensures Inv(net, ss[i]) && Potential(net, ss[i]) <= Allowance(c, acts[..i])
  {
    if i == 0 {
      InitInv(net, ss[0]);
      InitialWork(net, ss[0], |ss[0].nodes|);
    } else {
      PotentialPays(net, ss, acts, i - 1, c);
      assert Enabled(net, ss[i - 1], acts[i - 1]) && ss[i - 1 + 1] == Apply(net, ss[i - 1], acts[i - 1]);
      StepPays(net, ss[i - 1], acts[i - 1]);
      AllowanceStep(c, acts, i);
    }
  }

  lemma AllowanceStep(c: int, acts: seq<Action>, i: nat)
    requires 0 < i <= |acts|
    ensures Allowance(c, acts[..i]) == Allowance(c, acts[..i - 1]) + if acts[i - 1].Mine? then c else -1
  {
    assert acts[..i][..i - 1] == acts[..i - 1];
  }

  lemma {:induction false} InitialWork(net: Network, s: State, k: nat)
    requires IsInit(net, s) && k <= |s.nodes|
    ensures TotalWork(net, s.nodes, |s.mined|, k) == 0
  {
    if k > 0 {
      InitialWork(net, s, k - 1);
      assert IsFresh(s.nodes[k - 1]);
    }
  }

  /**
    A run with finitely many mined blocks terminates: it has at most three deliveries and child steps per
    mined block and directed link.
  */
  lemma GossipTerminates(net: Network, ss: seq<State>, acts: seq<Action>)
    requires IsRun(net, ss, acts)
    ensures |acts| - Mines(acts) <= 3 * Links(net, |net.links|) * Mines(acts)
  {
    PotentialPays(net, ss, acts, |acts|, 3 * Links(net, |net.links|));
    AllowanceCounts(3 * Links(net, |net.links|), acts);
    assert acts[..|acts|] == acts;
    TotalWorkNonNegative(net, ss[|acts|], |ss[|acts|].nodes|);
  }

  /** One step more, that is not mining, and less to do. */
  lemma OneMore(net: Network, ss: seq<State>, acts: seq<Action>) returns (a: Action, s: State)
    requires IsRun(net, ss, acts) && !AtRest(ss[|acts|])
    ensures !a.Mine? && IsRun(net, ss + [s], acts + [a])
    ensures |s.nodes| == |ss[|acts|].nodes| == |net.links| && 0 <= Potential(net, s) < Potential(net, ss[|acts|])
  {
    a := Progress(net, ss, acts, |acts|);
    RunInv(net, ss, acts, |acts|);
    StepPays(net, ss[|acts|], a);
    s := Apply(net, ss[|acts|], a);
    TotalWorkNonNegative(net, s, |s.nodes|);
    RunGrows(net, ss, acts, a, s);
  }

  lemma RunGrows(net: Network, ss: seq<State>, acts: seq<Action>, a: Action, s: State)
    requires IsRun(net, ss, acts) && Enabled(net, ss[|acts|], a) && s == Apply(net, ss[|acts|], a)
    ensures IsRun(net, ss + [s], acts + [a])
  {
    var ss', acts' := ss + [s], acts + [a];
    forall i | 0 <= i < |acts'|
      ensures Enabled(net, ss'[i], acts'[i]) && ss'[i + 1] == Apply(net, ss'[i], acts'[i])
    {
      if i < |acts| {
        assert Enabled(net, ss[i], acts[i]) && ss[i + 1] == Apply(net, ss[i], acts[i]);
        assert ss'[i] == ss[i] && ss'[i + 1] == ss[i + 1] && acts'[i] == acts[i];
      } else {
        assert ss'[i] == ss[|acts|] && ss'[i + 1] == s && acts'[i] == a;
      }
    }
  }

  /** Every run can be led to rest with no more mining, so that GossipConverges applies. */
  lemma ComesToRest(net: Network, ss: seq<State>, acts: seq<Action>)
    returns (ss': seq<State>, acts': seq<Action>)
    requires IsRun(net, ss, acts)
    ensures IsRun(net, ss', acts') && ss <= ss' && acts <= acts'
    ensures (forall i :: |acts| <= i < |acts'| ==> !acts'[i].Mine?) && AtRest(ss'[|acts'|])
  {
    RunInv(net, ss, acts, |acts|);
    TotalWorkNonNegative(net, ss[|acts|], |ss[|acts|].nodes|);
    ss', acts' := RestWithin(net, ss, acts, Potential(net, ss[|acts|]));
  }

  lemma {:induction false} RestWithin(net: Network, ss: seq<State>, acts: seq<Action>, bound: nat)
    returns (ss': seq<State>, acts': seq<Action>)
    requires IsRun(net, ss, acts) && |ss[|acts|].nodes| == |net.links| && Potential(net, ss[|acts|]) <= bound
    ensures IsRun(net, ss', acts') && ss <= ss' && acts <= acts'
    ensures (forall i :: |acts| <= i < |acts'| ==> !acts'[i].Mine?) && AtRest(ss'[|acts'|])
    decreases bound
  {
    ss', acts' := ss, acts;
    if !AtRest(ss[|acts|]) {
      var a, s := OneMore(net, ss, acts);
      ss', acts' := RestWithin(net, ss + [s], acts + [a], bound - 1);
    }
  }
}

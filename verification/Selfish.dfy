/**
  The selfish-mining coordinator: one miner that holds back the blocks of its members in a private
  chain and releases them in answer to blocks of others.  Each callback runs to completion.
*/
module Selfish {
  import opened TinyChain
  import opened TinyNode

  // ---------------------------------------------------------------- chains

  /** Each block's parent is the block before it, the first one's is `from`. */
  ghost predicate Linked(from: nat, chain: seq<Block>)
    decreases |chain|
  {
    chain == [] || (chain[0].parent == from && Linked(chain[0].id, chain[1..]))
  }

  function Tip(from: nat, chain: seq<Block>): nat {
    if chain == [] then from else chain[|chain| - 1].id
  }

  ghost predicate DistinctIds(chain: seq<Block>) {
    forall i, j {:trigger Differ(chain, i, j)} :: 0 <= i < j < |chain| ==> Differ(chain, i, j)
  }

  predicate Differ(chain: seq<Block>, i: nat, j: nat)
    requires i < |chain| && j < |chain|
  {
    chain[i].id != chain[j].id
  }

  /** Nobody else was given these blocks, nor a block built on them. */
  ghost predicate Secret(got: map<nat, Block>, members: set<nat>, chain: seq<Block>) {
    forall x :: x in chain ==> WellFormed(x) && x.miner in members && Unheard(got, x.id)
  }

  ghost predicate Unheard(got: map<nat, Block>, id: nat) {
    id !in got && forall k :: k in got ==> got[k].parent != id
  }

  ghost predicate AllSent(l: Ledger, got: map<nat, Block>, released: seq<Block>, unsent: seq<Block>) {
    forall x :: x in released ==> x in unsent || Settled(l, got, x)
  }

  ghost predicate Settled(l: Ledger, got: map<nat, Block>, x: Block) {
    Attached(l, x.id) && x.id in got && got[x.id] == x
  }

  /** Every block the node was given is a member's or was marked as seen. */
  ghost predicate AllSeen(got: map<nat, Block>, members: set<nat>, blocksSeen: set<nat>) {
    forall k :: k in got ==> got[k].miner in members || k in blocksSeen
  }

  ghost predicate SentOnce(got: map<nat, Block>, sent: seq<Block>) {
    DistinctIds(sent) && forall x :: x in sent ==> x.id in got
  }

  ghost predicate Extends(got: map<nat, Block>, got': map<nat, Block>) {
    forall k :: k in got ==> k in got' && got'[k] == got[k]
  }

  lemma ExtendsFurther(a: map<nat, Block>, b: map<nat, Block>, c: map<nat, Block>)
    requires Extends(a, b) && Extends(b, c)
    ensures Extends(a, c)
  {
  }

  /** Blocks stay attached, at the same height, while more blocks come in. */
  lemma {:induction false} HeightsKept(l: Ledger, got: map<nat, Block>, l': Ledger, got': map<nat, Block>, i: nat)
    requires Accounts(l, got, multiset{}) && Accounts(l', got', multiset{})
    requires Extends(got, got')
    requires Attached(l, i)
    ensures Attached(l', i) && i < |l.lengths| && i < |l'.lengths| && l'.lengths[i] == l.lengths[i]
    decreases i
  {
    if i > 0 {
      assert Known(l, i) && Rooted(l, i);
      assert i in got && GotInv(l, got, multiset{}, i);
      assert GotInv(l', got', multiset{}, i);
      HeightsKept(l, got, l', got', got[i].parent);
      assert Rooted(l', i);
    }
  }

  lemma HeightKept(l: Ledger, got: map<nat, Block>, l': Ledger, b: Block, i: nat)
    requires Accounts(l, got, multiset{}) && Accounts(l', got[b.id := b], multiset{}) && Fits(got, b)
    requires Attached(l, i)
    ensures Attached(l', i) && i < |l.lengths| && i < |l'.lengths| && l'.lengths[i] == l.lengths[i]
  {
    HeightsKept(l, got, l', got[b.id := b], i);
  }

  /** A block with an attached parent is attached, one higher. */
  lemma Joins(l: Ledger, got: map<nat, Block>, l': Ledger, b: Block)
    requires Accounts(l, got, multiset{}) && Fits(got, b) && Attached(l, b.parent)
    requires Accounts(l', got[b.id := b], multiset{})
    ensures Attached(l', b.id) && b.id < |l'.lengths| && b.parent < |l.lengths|
    ensures l'.lengths[b.id] == l.lengths[b.parent] + 1
  {
    HeightKept(l, got, l', b, b.parent);
    assert GotInv(l', got[b.id := b], multiset{}, b.id);
    assert Rooted(l', b.id);
  }

  /** A new block nobody built on completes no ancestry but its own. */
  lemma {:induction false} NoOtherCompleted(got: map<nat, Block>, b: Block, i: nat)
    requires Unheard(got, b.id) && i != b.id && AncestryReceived(got[b.id := b], i)
    ensures AncestryReceived(got, i)
    decreases i
  {
    if i > 0 {
      NoOtherCompleted(got, b, got[i].parent);
    }
  }

  function Highest(a: nat, b: nat): nat {
    if a < b then b else a
  }

  predicate HeadLength(lengths: seq<nat>, head: nat, n: nat) {
    head < |lengths| && lengths[head] == n
  }

  /** After a new block that nobody built on, the head's chain is the longer one of what it was and the block's
    * own. */
  lemma HeadAfter(l: Ledger, got: map<nat, Block>, l': Ledger, b: Block)
    requires Accounts(l, got, multiset{}) && Fits(got, b) && Unheard(got, b.id) && Attached(l, b.parent)
    requires Accounts(l', got[b.id := b], multiset{})
    ensures l.head < |l.lengths| && b.parent < |l.lengths|
    ensures HeadLength(l'.lengths, l'.head, Highest(l.lengths[l.head], l.lengths[b.parent] + 1))
  {
    var got' := got[b.id := b];
    Joins(l, got, l', b);
    HeightKept(l, got, l', b, l.head);
    AttachedLength(l', l.head);
    AttachedLength(l', b.id);
    if l'.head != b.id {
      AttachedIffAncestryReceived(l', got', l'.head);
      NoOtherCompleted(got, b, l'.head);
      AttachedIffAncestryReceived(l, got, l'.head);
      HeightKept(l, got, l', b, l'.head);
      AttachedLength(l, l'.head);
    }
  }

  /** What is attached was given, but for genesis. */
  lemma AttachedWasGiven(l: Ledger, got: map<nat, Block>, i: nat)
    requires Accounts(l, got, multiset{}) && Attached(l, i)
    ensures i == 0 || i in got
  {
    assert Known(l, i);
  }

  /** Dropping the first block of a secret chain into the open leaves the others secret. */
  lemma OneOut(got: map<nat, Block>, members: set<nat>, b: Block, rest: seq<Block>)
    requires Secret(got, members, [b] + rest) && DistinctIds([b] + rest) && Unheard(got, b.id)
    requires b.parent == 0 || b.parent in got
    ensures Secret(got[b.id := b], members, rest) && DistinctIds(rest)
  {
    var all := [b] + rest;
    forall x | x in rest
      ensures x.id != b.id && x in all && x.id != b.parent
    {
      var i :| 0 <= i < |rest| && rest[i] == x;
      assert Differ(all, 0, i + 1) && all[i + 1] == x && all[0] == b;
    }
    forall i, j | 0 <= i < j < |rest|
      ensures Differ(rest, i, j)
    {
      assert Differ(all, i + 1, j + 1) && all[i + 1] == rest[i] && all[j + 1] == rest[j];
    }
  }

  lemma SentOneMore(got: map<nat, Block>, sent: seq<Block>, b: Block)
    requires SentOnce(got, sent) && b.id !in got
    ensures SentOnce(got[b.id := b], sent + [b])
  {
    var more := sent + [b];
    forall i, j | 0 <= i < j < |more|
      ensures Differ(more, i, j)
    {
      assert more[i] in sent;
      assert j < |sent| ==> Differ(sent, i, j);
    }
  }

  lemma {:induction false} LinkedSplit(from: nat, a: seq<Block>, b: seq<Block>)
    ensures Linked(from, a + b) <==> Linked(from, a) && Linked(Tip(from, a), b)
    ensures Tip(from, a + b) == Tip(Tip(from, a), b)
    decreases |a|
  {
    if a == [] {
      assert a + b == b;
    } else {
      assert (a + b)[1..] == a[1..] + b;
      LinkedSplit(a[0].id, a[1..], b);
    }
  }

  lemma TipOfReleased(l: Ledger, got: map<nat, Block>, base: nat, released: seq<Block>)
    requires Attached(l, base) && AllSent(l, got, released, [])
    ensures Attached(l, Tip(base, released))
  {
    assert released != [] ==> Settled(l, got, released[|released| - 1]);
  }

  lemma FirstOfChain(released: seq<Block>, chain: seq<Block>)
    requires chain != []
    ensures [] + chain == [chain[0]] + chain[1..]
    ensures released + chain == (released + [chain[0]]) + chain[1..]
  {
  }

  /** The first private block sits on what was released. */
  lemma FirstOut(l: Ledger, got: map<nat, Block>, base: nat, released: seq<Block>, chain: seq<Block>)
    requires Attached(l, base) && AllSent(l, got, released, []) && Linked(base, released + chain) && chain != []
    ensures Linked(Tip(base, released), [chain[0]])
    ensures Attached(l, Tip(base, released))
  {
    LinkedSplit(base, released, chain);
    TipOfReleased(l, got, base, released);
    assert [chain[0]][1..] == [];
  }

  lemma OneMoreSent(l: Ledger, got: map<nat, Block>, released: seq<Block>, b: Block)
    requires AllSent(l, got, released, [])
    ensures AllSent(l, got, released + [b], [b])
  {
  }

  // ---------------------------------------------------------------- plans

  /** The coordinator's fields, with where the private chain forked off, what was released of it since, and
    * whether it was ever cleared. */
  datatype Plan = Plan(
    members: set<nat>, ourChain: seq<Block>, blocksSeen: set<nat>, startingHeight: nat, publishedBlocks: nat,
    ourHead: nat, sent: seq<Block>, base: nat, released: seq<Block>, cleared: bool)

  /** The plan is in order while `unsent`, a chain on top of the attached block `from`, was taken out for
    * release and is still to be sent. */
  ghost predicate Sane(l: Ledger, got: map<nat, Block>, p: Plan, unsent: seq<Block>, from: nat) {
    && Attached(l, from) && Linked(from, unsent)
    && Secret(got, p.members, unsent + p.ourChain) && DistinctIds(unsent + p.ourChain)
    && OneChain(l, p)
    && AllSent(l, got, p.released, unsent)
    && AllSeen(got, p.members, p.blocksSeen)
    && SentOnce(got, p.sent)
  }

  /** The blocks released since the last clear and the private ones after them form one chain on `base`;
    * the released part is no longer than the node's best chain. */
  ghost predicate OneChain(l: Ledger, p: Plan) {
    && Linked(p.base, p.released + p.ourChain)
    && p.ourHead == Tip(p.base, p.released + p.ourChain)
    && |p.released| == p.publishedBlocks
    && Attached(l, p.base) && p.base < |l.lengths| && l.head < |l.lengths|
    && p.startingHeight + (if p.cleared then 0 else 1) == l.lengths[p.base]
    && p.startingHeight + p.publishedBlocks <= l.lengths[l.head]
  }

  /** A block that is not private, nor built on a private one. */
  ghost predicate Foreign(got: map<nat, Block>, secret: seq<Block>, b: Block) {
    Fits(got, b) && forall x :: x in secret ==> x.id != b.id && x.id != b.parent
  }

  /** A foreign block that reaches the node leaves the plan in order. */
  lemma PassKeepsPlan(l: Ledger, got: map<nat, Block>, l': Ledger, b: Block, p: Plan, unsent: seq<Block>, from: nat)
    requires Accounts(l, got, multiset{}) && Accounts(l', got[b.id := b], multiset{})
    requires Sane(l, got, p, unsent, from) && Foreign(got, unsent + p.ourChain, b)
    requires HeadAdvances(l.lengths, l.head, l'.lengths, l'.head)
    ensures Sane(l', got[b.id := b], p.(blocksSeen := p.blocksSeen + {b.id}), unsent, from)
    ensures b.miner in p.members ==> Sane(l', got[b.id := b], p, unsent, from)
    ensures from < |l.lengths| && from < |l'.lengths| && l'.lengths[from] == l.lengths[from]
  {
    HeightKept(l, got, l', b, from);
    HeightKept(l, got, l', b, p.base);
    MarkSeen(got, p.members, p.blocksSeen, b);
    forall x | x in p.released && x !in unsent
      ensures Settled(l', got[b.id := b], x)
    {
      HeightKept(l, got, l', b, x.id);
    }
  }

  lemma MarkSeen(got: map<nat, Block>, members: set<nat>, blocksSeen: set<nat>, b: Block)
    requires AllSeen(got, members, blocksSeen) && Fits(got, b)
    ensures b.miner in members ==> AllSeen(got[b.id := b], members, blocksSeen)
    ensures AllSeen(got[b.id := b], members, blocksSeen + {b.id})
    ensures b.miner !in members && b.id !in blocksSeen ==> b.id !in got
    ensures b.id in blocksSeen ==> blocksSeen + {b.id} == blocksSeen
  {
  }

  /** A released block joins the tree, one above its parent, and leaves the plan in order. */
  lemma ReleaseKeepsPlan(l: Ledger, got: map<nat, Block>, l': Ledger, b: Block, p: Plan, rest: seq<Block>, from: nat)
    requires Accounts(l, got, multiset{}) && Accounts(l', got[b.id := b], multiset{})
    requires Sane(l, got, p, [b] + rest, from) && Fits(got, b) && b.miner in p.members && b.parent == from
    requires HeadAdvances(l.lengths, l.head, l'.lengths, l'.head)
    ensures from < |l.lengths| && b.id < |l'.lengths| && l'.lengths[b.id] == l.lengths[from] + 1
    ensures Sane(l', got[b.id := b], p.(sent := p.sent + [b]), rest, b.id)
  {
    ReleaseKeepsSecret(l, got, b, p, rest, from);
    Joins(l, got, l', b);
    HeightKept(l, got, l', b, p.base);
    MarkSeen(got, p.members, p.blocksSeen, b);
    assert AllSent(l', got[b.id := b], p.released, rest) by {
      forall x | x in p.released && x !in rest
        ensures Settled(l', got[b.id := b], x)
      {
        if x != b { HeightKept(l, got, l', b, x.id); }
      }
    }
  }

  lemma ReleaseKeepsSecret(l: Ledger, got: map<nat, Block>, b: Block, p: Plan, rest: seq<Block>, from: nat)
    requires Accounts(l, got, multiset{}) && Sane(l, got, p, [b] + rest, from)
    ensures Linked(b.id, rest) && Fits(got, b) && b.parent == from && b.miner in p.members && Unheard(got, b.id)
    ensures Secret(got[b.id := b], p.members, rest + p.ourChain) && DistinctIds(rest + p.ourChain)
    ensures SentOnce(got[b.id := b], p.sent + [b])
    ensures Foreign(got[b.id := b], rest + p.ourChain, b)
  {
    var all := [b] + (rest + p.ourChain);
    assert ([b] + rest) + p.ourChain == all && all[0] == b;
    assert ([b] + rest)[0] == b && ([b] + rest)[1..] == rest;
    AttachedWasGiven(l, got, from);
    OneOut(got, p.members, b, rest + p.ourChain);
    SentOneMore(got, p.sent, b);
    forall x | x in rest + p.ourChain
      ensures x.id != b.id && x.id != b.parent
    {
      var i :| 0 <= i < |rest + p.ourChain| && (rest + p.ourChain)[i] == x;
      assert all[i + 1] == x && Differ(all, 0, i + 1);
    }
  }

  /** What taking out the first private block makes of a plan. */
  function FirstTaken(p: Plan): Plan
    requires p.ourChain != []
  {
    p.(ourChain := p.ourChain[1..], publishedBlocks := p.publishedBlocks + 1, released := p.released + [p.ourChain[0]])
  }

  /** And sending it. */
  function FirstSent(p: Plan): Plan
    requires p.ourChain != []
  {
    WithSent(FirstTaken(p), [p.ourChain[0]])
  }

  function WithSent(p: Plan, blocks: seq<Block>): Plan {
    p.(sent := p.sent + blocks)
  }

  /** Taking out the first private block when the node's chain outgrew what was released. */
  lemma FirstOutKeepsPlan(l: Ledger, got: map<nat, Block>, p: Plan, from: nat)
    requires Sane(l, got, p, [], from) && p.ourChain != []
    requires p.startingHeight + p.publishedBlocks < l.lengths[l.head]
    ensures Sane(l, got, FirstTaken(p), [p.ourChain[0]], Tip(p.base, p.released))
  {
    FirstOut(l, got, p.base, p.released, p.ourChain);
    FirstOfChain(p.released, p.ourChain);
    OneMoreSent(l, got, p.released, p.ourChain[0]);
  }

  /** The released part of the chain stands on its base, one block per height. */
  lemma {:induction false} ReleasedHeight(l: Ledger, got: map<nat, Block>, base: nat, released: seq<Block>)
    requires Accounts(l, got, multiset{}) && Attached(l, base) && base < |l.lengths|
    requires Linked(base, released) && AllSent(l, got, released, [])
    ensures var tip := Tip(base, released);
      Attached(l, tip) && tip < |l.lengths| && l.lengths[tip] == l.lengths[base] + |released|
    decreases |released|
  {
    if released != [] {
      var x, rest := released[0], released[1..];
      assert x in released && GotInv(l, got, multiset{}, x.id) && Rooted(l, x.id);
      ReleasedHeight(l, got, x.id, rest);
    }
  }

  /** The length the private tip will have once all is released: what the coordinator reckons, but one more
    * until the chain was first cleared. */
  lemma PrivateTipHeight(l: Ledger, got: map<nat, Block>, p: Plan, from: nat)
    requires Accounts(l, got, multiset{}) && Sane(l, got, p, [], from)
    ensures var tip := Tip(p.base, p.released);
      && Attached(l, tip) && tip < |l.lengths| && l.head < |l.lengths| && l.lengths[tip] <= l.lengths[l.head]
      && l.lengths[tip] + |p.ourChain| == TipHeight(p)
  {
    LinkedSplit(p.base, p.released, p.ourChain);
    ReleasedHeight(l, got, p.base, p.released);
    AttachedLength(l, Tip(p.base, p.released));
  }

  /** The length the coordinator ascribes to its private chain. */
  function Reach(p: Plan): nat {
    p.startingHeight + |p.ourChain| + p.publishedBlocks
  }

  /** Its true length: one more until the chain was first cleared. */
  ghost function TipHeight(p: Plan): nat {
    Reach(p) + if p.cleared then 0 else 1
  }

  /** What `clear_chain` makes of a plan. */
  function Cleared(l: Ledger, p: Plan): Plan
    requires l.head < |l.lengths|
  {
    p.(ourChain := [], publishedBlocks := 0, ourHead := l.head, startingHeight := l.lengths[l.head],
       base := l.head, released := [], cleared := true)
  }

  /** Taking out the whole private chain and starting a new one on the head. */
  lemma AllOutKeepsPlan(l: Ledger, got: map<nat, Block>, p: Plan, from: nat)
    requires Sane(l, got, p, [], from) && Attached(l, l.head)
    ensures Sane(l, got, Cleared(l, p), p.ourChain, Tip(p.base, p.released))
  {
    LinkedSplit(p.base, p.released, p.ourChain);
    TipOfReleased(l, got, p.base, p.released);
    assert [] + p.ourChain == p.ourChain + [];
  }

  lemma ClearKeepsPlan(l: Ledger, got: map<nat, Block>, p: Plan, from: nat)
    requires Sane(l, got, p, [], from) && Attached(l, l.head)
    ensures Sane(l, got, Cleared(l, p), [], from)
  {
    var none: seq<Block> := [];
    assert none + none == none;
  }

  /** With nothing left to send it does not matter where sending would go on. */
  lemma NothingToSend(l: Ledger, got: map<nat, Block>, p: Plan, from: nat)
    requires Sane(l, got, p, [], from) && Attached(l, 0)
    ensures Sane(l, got, p, [], 0)
  {
  }

  /** Mining on the tip of the private chain. */
  lemma MinedKeepsPlan(l: Ledger, got: map<nat, Block>, p: Plan, b: Block, from: nat)
    requires Sane(l, got, p, [], from)
    requires WellFormed(b) && b.miner in p.members && b.parent == p.ourHead && Unheard(got, b.id)
    requires forall x :: x in p.ourChain ==> x.id != b.id
    ensures Sane(l, got, p.(ourChain := p.ourChain + [b], ourHead := b.id), [], from)
  {
    MinedKeepsSecret(got, p.members, p.ourChain, b);
    MinedKeepsChain(p.base, p.released, p.ourChain, b);
  }

  lemma MinedKeepsSecret(got: map<nat, Block>, members: set<nat>, chain: seq<Block>, b: Block)
    requires Secret(got, members, [] + chain) && DistinctIds([] + chain)
    requires WellFormed(b) && b.miner in members && Unheard(got, b.id)
    requires forall x :: x in chain ==> x.id != b.id
    ensures Secret(got, members, [] + (chain + [b])) && DistinctIds([] + (chain + [b]))
  {
    assert [] + chain == chain;
    var grown := chain + [b];
    assert [] + grown == grown;
    forall i, j | 0 <= i < j < |grown|
      ensures Differ(grown, i, j)
    {
      assert grown[i] == chain[i] && chain[i] in chain;
      assert j < |chain| ==> Differ(chain, i, j);
    }
  }

  lemma MinedKeepsChain(base: nat, released: seq<Block>, chain: seq<Block>, b: Block)
    requires Linked(base, released + chain) && b.parent == Tip(base, released + chain)
    ensures Linked(base, released + (chain + [b])) && Tip(base, released + (chain + [b])) == b.id
  {
    assert released + (chain + [b]) == (released + chain) + [b];
    LinkedSplit(base, released + chain, [b]);
    assert [b][1..] == [];
  }

  lemma NextSlice<T>(prefix: seq<T>, xs: seq<T>, i: nat)
    requires i < |xs|
    ensures xs[i..] == [xs[i]] + xs[i + 1..] && xs[..i + 1] == xs[..i] + [xs[i]]
    ensures prefix + xs[..i] + [xs[i]] == prefix + xs[..i + 1]
  {
  }

  method Appended(to: seq<Block>, chain: seq<Block>) returns (all: seq<Block>)
    ensures all == to + chain
  {
    all := to;
    for i := 0 to |chain|
      invariant all == to + chain[..i]
    {
      all := all + [chain[i]];
      NextSlice(to, chain, i);
    }
    assert chain[..|chain|] == chain;
  }

  /** How the coordinator answers a block. */
  datatype Answer = Ignore | GiveUp | Match | Overtake | Lead

  // ---------------------------------------------------------------- coordinator

  class Coordinator {
    const node: Miner
    var members: set<nat>
    var ourChain: seq<Block>
    var blocksSeen: set<nat>
    var startingHeight: nat
    var publishedBlocks: nat
    var ourHead: nat
    var privatePending: set<nat>
    /** Blocks handed to the members for broadcast, oldest first. */
    var sent: seq<Block>

    ghost var base: nat
    ghost var released: seq<Block>
    ghost var cleared: bool

    ghost function View(): Plan
      reads this
    {
      Plan(members, ourChain, blocksSeen, startingHeight, publishedBlocks, ourHead, sent, base, released, cleared)
    }

    ghost predicate Valid(unsent: seq<Block>, from: nat)
      reads this, node
    {
      node.Valid(multiset{}) && Sane(node.View(), node.got, View(), unsent, from)
    }

    constructor (rules: Rules, genesisId: nat, startingBalance: real)
      requires 0 < genesisId < PARKED
      ensures Valid([], 0) && fresh(node)
      ensures View() == Plan({}, [], {}, 0, 0, 0, [], 0, [], false) && privatePending == {}
      ensures node.View() == TinyChain.Fresh(genesisId, startingBalance) && node.got == map[] && node.seen == {}
    {
      node := new Miner(rules, genesisId, startingBalance);
      members, ourChain, blocksSeen, privatePending, sent := {}, [], {}, {}, [];
      startingHeight, publishedBlocks, ourHead := 0, 0, 0;
      base, released, cleared := 0, [], false;
    }

    method AddMember(id: nat)
      requires Valid([], 0)
      modifies this`members
      ensures Valid([], 0) && View() == old(View()).(members := old(members) + {id})
    {
      members := members + {id};
    }

    method ClearChain()
      requires node.head < |node.lengths|
      modifies this`ourChain, this`publishedBlocks, this`ourHead, this`startingHeight, this`privatePending
      modifies this`base, this`released, this`cleared
      ensures View() == Cleared(node.View(), old(View())) && privatePending == node.pendingTransactions
    {
      ourChain, publishedBlocks := [], 0;
      ourHead := node.head;
      startingHeight := node.lengths[node.head];
      privatePending := node.pendingTransactions;
      base, released, cleared := node.head, [], true;
    }

    method AddBlock(b: Block)
      modifies this`ourChain, this`ourHead, this`privatePending
      ensures View() == old(View()).(ourChain := old(ourChain) + [b], ourHead := b.id)
      ensures privatePending == old(privatePending) - Ids(b)
    {
      for i := 0 to |b.transactions|
        invariant View() == old(View())
        invariant privatePending == old(privatePending) - IdsOf(b.transactions[..i])
      {
        privatePending := privatePending - {b.transactions[i].id};
        assert b.transactions[..i + 1] == b.transactions[..i] + [b.transactions[i]];
      }
      assert b.transactions[..|b.transactions|] == b.transactions;
      ourChain := ourChain + [b];
      ourHead := b.id;
    }

    /** `flush_chain_` under the lock: takes out the whole private chain and starts a new one at the node's head. */
    method TakeAll() returns (toSend: seq<Block>)
      requires Valid([], 0)
      modifies this`ourChain, this`publishedBlocks, this`ourHead, this`startingHeight, this`privatePending
      modifies this`base, this`released, this`cleared
      ensures members == {} ==> toSend == [] && unchanged(this)
      ensures members != {} ==> toSend == old(ourChain) && View() == Cleared(node.View(), old(View()))
      ensures members != {} ==> privatePending == node.pendingTransactions
      ensures Valid(toSend, if members == {} then 0 else old(Tip(base, released)))
    {
      toSend := [];
      if members == {} { return; }
      AllOutKeepsPlan(node.View(), node.got, View(), 0);
      toSend := Appended(toSend, ourChain);
      ClearChain();
    }

    /** Takes the first private block out for release. */
    method TakeFirst() returns (b: Block)
      requires Valid([], 0) && ourChain != []
      requires startingHeight + publishedBlocks < node.lengths[node.head]
      modifies this`ourChain, this`publishedBlocks, this`released
      ensures b == old(ourChain)[0] && Valid([b], old(Tip(base, released)))
      ensures View() == FirstTaken(old(View()))
    {
      FirstOutKeepsPlan(node.View(), node.got, View(), 0);
      b := ourChain[0];
      ourChain := ourChain[1..];
      publishedBlocks := publishedBlocks + 1;
      released := released + [b];
    }

    /** The head of `others_block`, which a member that sends a released block also runs into: hands the
      * block to the node and tells whether it needs an answer. */
    method Arrive(b: Block, ghost unsent: seq<Block>, ghost from: nat) returns (relevant: bool)
      requires Valid(unsent, from) && Foreign(node.got, unsent + ourChain, b)
      modifies this`blocksSeen, node
      ensures Valid(unsent, from)
      ensures node.got == old(node.got)[b.id := b]
      ensures View() == Marked(old(View()), b)
      ensures relevant <==> b.miner !in members && b.id !in old(blocksSeen) && node.head == b.id
      ensures HeadAdvances(old(node.lengths), old(node.head), node.lengths, node.head)
      ensures relevant ==> startingHeight + publishedBlocks < node.lengths[node.head]
      ensures from < |node.lengths| && from < |old(node.lengths)| && node.lengths[from] == old(node.lengths[from])
    {
      ghost var l, got := node.View(), node.got;
      AttachedWasGiven(l, got, node.head);
      MarkSeen(got, members, blocksSeen, b);
      var _ := node.HandleBlock(b, multiset{});
      assert multiset{} - multiset{b} == multiset{};
      PassKeepsPlan(l, got, node.View(), b, View(), unsent, from);
      relevant := false;
      if b.miner !in members && b.id !in blocksSeen {
        blocksSeen := blocksSeen + {b.id};
        relevant := b.id == node.head;
      }
    }

    /** `send_block`. Each member that has not had the block yet calls back into the coordinator, which has
      * nothing to do for it. */
    method SendBlock(b: Block, ghost rest: seq<Block>, ghost from: nat)
      requires Valid([b] + rest, from)
      modifies this`sent, this`blocksSeen, node
      ensures Valid(rest, b.id) && sent == old(sent) + [b] && blocksSeen == old(blocksSeen)
      ensures Extends(old(node.got), node.got)
      ensures from < |old(node.lengths)| && b.id < |node.lengths| && node.lengths[b.id] == old(node.lengths[from]) + 1
      ensures old(node.head) < |old(node.lengths)|
      ensures HeadLength(node.lengths, node.head, Highest(old(node.lengths[node.head]), old(node.lengths[from]) + 1))
    {
      ghost var l, got := node.View(), node.got;
      ReleaseKeepsSecret(l, got, b, View(), rest, from);
      var _ := node.HandleBlock(b, multiset{});
      assert multiset{} - multiset{b} == multiset{};
      ReleaseKeepsPlan(l, got, node.View(), b, View(), rest, from);
      HeadAfter(l, got, node.View(), b);
      sent := sent + [b];
      CallBacks(b, rest);
    }

    method CallBacks(b: Block, ghost rest: seq<Block>)
      requires Valid(rest, b.id) && Foreign(node.got, rest + ourChain, b) && b.miner in members && b.id in node.got
      modifies this`blocksSeen, node
      ensures Valid(rest, b.id) && blocksSeen == old(blocksSeen) && node.got == old(node.got)
      ensures b.id < |old(node.lengths)| && b.id < |node.lengths| && node.lengths[b.id] == old(node.lengths[b.id])
      ensures old(node.head) < |old(node.lengths)|
      ensures HeadLength(node.lengths, node.head, old(node.lengths[node.head]))
    {
      ghost var l := node.View();
      var left := members;
      while left != {}
        invariant Valid(rest, b.id) && blocksSeen == old(blocksSeen) && node.got == old(node.got)
        decreases left
      {
        var member :| member in left;
        left := left - {member};
        CallBack(b, rest);
      }
      HeightsKept(l, node.got, node.View(), node.got, b.id);
      OrderDoesNotMatter(l, node.View(), node.got, 0);
    }

    method CallBack(b: Block, ghost rest: seq<Block>)
      requires Valid(rest, b.id) && Foreign(node.got, rest + ourChain, b) && b.miner in members && b.id in node.got
      modifies this`blocksSeen, node
      ensures Valid(rest, b.id) && blocksSeen == old(blocksSeen) && node.got == old(node.got)
    {
      var again := Arrive(b, rest, b.id);
      assert !again;
    }

    /** Sends a run of blocks, oldest first. */
    method SendAll(toSend: seq<Block>, ghost from: nat)
      requires Valid(toSend, from)
      modifies this`sent, this`blocksSeen, node
      ensures Extends(old(node.got), node.got)
      ensures Valid([], 0) && View() == WithSent(old(View()), toSend)
      ensures from < |old(node.lengths)| && old(node.head) < |old(node.lengths)|
      ensures HeadLength(node.lengths, node.head, Highest(old(node.lengths[node.head]), old(node.lengths[from]) + |toSend|))
    {
      SendEach(toSend, from);
    }

    method SendEach(toSend: seq<Block>, ghost from: nat)
      requires Valid(toSend, from)
      modifies this`sent, this`blocksSeen, node
      ensures Extends(old(node.got), node.got)
      ensures Valid([], 0) && sent == old(sent) + toSend && blocksSeen == old(blocksSeen)
      ensures from < |old(node.lengths)| && Tip(from, toSend) < |node.lengths|
      ensures node.lengths[Tip(from, toSend)] == old(node.lengths[from]) + |toSend|
      ensures old(node.head) < |old(node.lengths)|
      ensures HeadLength(node.lengths, node.head, Highest(old(node.lengths[node.head]), old(node.lengths[from]) + |toSend|))
    {
      AttachedLength(node.View(), from);
      ghost var got, sentBefore := node.got, sent;
      ghost var height, longest := node.lengths[from], node.lengths[node.head];
      ghost var done: seq<Block>, rest: seq<Block>, at: nat := [], toSend, from;
      for i := 0 to |toSend|
        invariant Valid(rest, at) && blocksSeen == old(blocksSeen) && sent == sentBefore + done
        invariant Extends(got, node.got)
        invariant done == toSend[..i] && rest == toSend[i..] && at == Tip(from, done)
        invariant at < |node.lengths| && node.lengths[at] == height + i
        invariant HeadLength(node.lengths, node.head, Highest(longest, height + i))
      {
        var b := toSend[i];
        NextSlice(sentBefore, toSend, i);
        ghost var before := node.got;
        done, rest := toSend[..i + 1], toSend[i + 1..];
        SendBlock(b, rest, at);
        ExtendsFurther(got, before, node.got);
        at := b.id;
      }
      assert done == toSend && rest == [];
      NothingToSend(node.View(), node.got, View(), at);
    }

    /** Takes out the whole private chain and sends it. The new start of the private chain stays at the old
      * head; it is overtaken at once if and only if the private tip was longer than that head. */
    method Flush()
      requires Valid([], 0)
      modifies this, node
      ensures Valid([], 0) && Extends(old(node.got), node.got)
      ensures members == old(members) && blocksSeen == old(blocksSeen)
      ensures members == {} ==> View() == old(View()) && node.View() == old(node.View())
      ensures members != {} ==>
        View() == WithSent(Cleared(old(node.View()), old(View())), old(ourChain))
      ensures privatePending == old(if members == {} then privatePending else node.pendingTransactions)
      ensures old(node.head) < |old(node.lengths)|
      ensures members != {} ==>
        (Overtaken(node.lengths, ourHead, node.head) <==> old(TipHeight(View())) > old(node.lengths[node.head]))
    {
      ghost var tip := Tip(base, released);
      PrivateTipHeight(node.View(), node.got, View(), 0);
      var toSend := TakeAll();
      if members != {} {
        SendAll(toSend, tip);
      }
    }

    /** Takes the first private block out and sends it. */
    method ReleaseFirst()
      requires Valid([], 0) && ourChain != []
      requires startingHeight + publishedBlocks < node.lengths[node.head]
      modifies this`ourChain, this`publishedBlocks, this`released, this`sent, this`blocksSeen, node
      ensures Valid([], 0) && Extends(old(node.got), node.got)
      ensures View() == FirstSent(old(View()))
    {
      ghost var p, tip := View(), Tip(base, released);
      var b := TakeFirst();
      ghost var q := View();
      SendAll([b], tip);
      assert q == FirstTaken(p) && View() == WithSent(q, [b]);
    }

    /** The part of `others_block` that answers a new head. */
    method React() returns (ghost answer: Answer)
      requires Valid([], 0) && startingHeight + publishedBlocks < node.lengths[node.head]
      modifies this, node
      ensures Valid([], 0)
      ensures old(node.head) < |old(node.lengths)| && old(node.head) < |node.lengths|
      ensures node.lengths[old(node.head)] == old(node.lengths[node.head])
      ensures Answers(old(View()), old(node.head), old(node.lengths[node.head]), answer, View()) && answer != Ignore
      ensures answer == Overtake && members != {} ==> Overtaken(node.lengths, ourHead, node.head)
      ensures answer == GiveUp || (answer == Overtake && members != {}) ==>
        privatePending == old(node.pendingTransactions)
      ensures answer == Match || answer == Lead || (answer == Overtake && members == {}) ==>
        privatePending == old(privatePending)
      ensures answer == GiveUp ==> node.pendingTransactions == old(node.pendingTransactions)
    {
      ghost var l, got := node.View(), node.got;
      var reach := startingHeight + |ourChain| + publishedBlocks;
      var length := node.lengths[node.head];
      if reach < length {
        answer := GiveUp;
        ClearKeepsPlan(node.View(), node.got, View(), 0);
        ClearChain();
      } else if reach == length + 1 {
        answer := Overtake;
        Flush();
      } else {
        answer := if reach == length then Match else Lead;
        ReleaseFirst();
      }
      HeightsKept(l, got, node.View(), node.got, l.head);
    }

    /** `others_block`: the answer to a block of another miner that became the node's head. What was
      * released always falls short of that head, so the private chain has a block to give whenever one
      * is due. */
    method OthersBlock(b: Block) returns (ghost answer: Answer, ghost length: nat)
      requires Valid([], 0) && Foreign(node.got, ourChain, b)
      modifies this, node
      ensures Valid([], 0)
      ensures b.miner in members || b.id in old(blocksSeen) ==> answer == Ignore
      ensures answer == Ignore && b.miner !in members && b.id !in old(blocksSeen) ==> node.head != b.id
      ensures Answers(Marked(old(View()), b), b.id, length, answer, View())
      ensures answer != Ignore ==> b.id < |node.lengths| && node.lengths[b.id] == length
      ensures answer == Overtake && members != {} ==> ourHead == b.id && Overtaken(node.lengths, b.id, node.head)
      ensures answer == GiveUp ==> privatePending == node.pendingTransactions
      ensures answer != GiveUp && answer != Overtake ==> privatePending == old(privatePending)
    {
      assert [] + ourChain == ourChain;
      var relevant := Arrive(b, [], 0);
      answer, length := Ignore, 0;
      if relevant {
        length := node.lengths[b.id];
        answer := React();
      }
    }

    /** `our_block`: a member's new block joins the private chain. With a lead of exactly one over the
      * node's head, and more than this block since the chain was last cleared, all is sent. */
    method OurBlock(b: Block)
      requires Valid([], 0)
      requires WellFormed(b) && b.miner in members && b.parent == ourHead && Unheard(node.got, b.id)
      requires forall x :: x in ourChain ==> x.id != b.id
      modifies this, node
      ensures Valid([], 0)
      ensures var grown := old(View()).(ourChain := old(ourChain) + [b], ourHead := b.id);
              && old(node.head) < |old(node.lengths)|
              && var won := Reach(grown) == old(node.lengths[node.head]) + 1 &&
                            |grown.ourChain| + grown.publishedBlocks > 1;
              && (won ==> View() == WithSent(Cleared(old(node.View()), grown), grown.ourChain))
              && (won ==> Overtaken(node.lengths, ourHead, node.head))
              && (!won ==> View() == grown && node.View() == old(node.View()) && node.got == old(node.got))
              && privatePending == if won then old(node.pendingTransactions) else old(privatePending) - Ids(b)
    {
      MinedKeepsPlan(node.View(), node.got, View(), b, 0);
      AddBlock(b);
      if startingHeight + |ourChain| + publishedBlocks == node.lengths[node.head] + 1 &&
         publishedBlocks + |ourChain| > 1 {
        Flush();
      }
    }

    /** `on_mined` of a member, with the id and the transactions of the new block given. */
    method OnMined(member: nat, id: nat, transactions: seq<Transaction>)
      requires Valid([], 0) && member in members
      requires ourHead < id < PARKED && Unheard(node.got, id) && forall x :: x in ourChain ==> x.id != id
      modifies this, node
      ensures Valid([], 0)
      ensures old(ourChain) + [Block(id, old(ourHead), member, transactions)] == ourChain ||
              old(sent) + old(ourChain) + [Block(id, old(ourHead), member, transactions)] == sent
    {
      OurBlock(Block(id, ourHead, member, transactions));
    }

    /** `on_transaction` of a member. */
    method Transact(tx: Transaction)
      requires Valid([], 0) && tx.id < MISSING
      modifies this`privatePending, node
      ensures Valid([], 0) && privatePending == old(privatePending) + {tx.id}
      ensures node.head == old(node.head) && node.seen == old(node.seen) + {tx.id}
    {
      var _ := node.HandleTransaction(tx, multiset{});
      privatePending := privatePending + {tx.id};
    }
  }

  /** Blocks of others are marked as seen. */
  function Marked(p: Plan, b: Block): Plan {
    if b.miner in p.members then p else p.(blocksSeen := p.blocksSeen + {b.id})
  }

  /** Member 7 of eight nodes mines the first two blocks there are, after the genesis blocks of coordinator and nodes
    * took the ids from 1 to 9: the race is won, both are sent, and yet the coordinator goes on mining on genesis. */
  method WinnerMinesOnStaleHead(rules: Rules, balance: real) returns (c: Coordinator)
    ensures fresh(c) && c.Valid([], 0) && c.ourHead == 0
    ensures c.sent == [Block(10, 0, 7, []), Block(11, 10, 7, [])] && Overtaken(c.node.lengths, c.ourHead, c.node.head)
  {
    c := new Coordinator(rules, 1, balance);
    c.AddMember(7);
    c.OurBlock(Block(10, 0, 7, []));
    c.OurBlock(Block(11, 10, 7, []));
  }

  ghost predicate Overtaken(lengths: seq<nat>, i: nat, head: nat) {
    i < |lengths| && head < |lengths| && lengths[i] < lengths[head]
  }

  /** The coordinator's answer to a new head `id` of the given length and what it makes of the plan. */
  ghost predicate Answers(p: Plan, id: nat, length: nat, answer: Answer, p': Plan) {
    var restarted := p.(ourChain := [], publishedBlocks := 0, ourHead := id, startingHeight := length,
                        base := id, released := [], cleared := true);
    match answer
    case Ignore => p' == p
    case GiveUp => Reach(p) < length && p' == restarted
    case Overtake => Reach(p) == length + 1
      && p' == if p.members == {} then p else restarted.(sent := p.sent + p.ourChain)
    case _ =>
      && (if answer == Match then Reach(p) == length else Reach(p) > length + 1)
      && p.ourChain != []
      && p' == FirstSent(p)
  }
}

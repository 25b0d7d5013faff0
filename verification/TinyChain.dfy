/**
  The state of a TinyCoin node as a value: its block tree, its head, its balance and its pending
  transactions, and what the critical section of `handle_block` does to them.

  A block lives at the index that is its id; the genesis block lives at index 0 under an id of its
  own.  Two reserved ids mark an index nobody has filled and a block whose parent is not attached.
*/
module TinyChain {

  const MISSING: nat := 0xFFFF_FFFF_FFFF_FFFF
  const PARKED: nat := 0xFFFF_FFFF_FFFF_FFFE

  datatype Transaction = Transaction(source: nat, destination: nat, amount: real, id: nat)

  datatype Block = Block(id: nat, parent: nat, miner: nat, transactions: seq<Transaction>)

  const NO_BLOCK := Block(MISSING, 0, 0, [])

  /** Who the node is and what mining pays. */
  datatype Rules = Rules(self: nat, blockReward: real, transactionReward: real)

  datatype Ledger = Ledger(
    blockchain: seq<Block>,
    pendingBlocks: seq<seq<Block>>,
    lengths: seq<nat>,
    head: nat,
    balance: real,
    pendingTransactions: set<nat>)

  /** What the network guarantees of the ids of mined blocks. */
  predicate WellFormed(b: Block) {
    0 < b.id < PARKED && b.parent < b.id
  }

  predicate Known(l: Ledger, i: nat) {
    i < |l.blockchain| && l.blockchain[i].id != MISSING
  }

  predicate Attached(l: Ledger, i: nat) {
    i < |l.blockchain| && l.blockchain[i].id != MISSING && l.blockchain[i].id != PARKED
  }

  /** A vector grown with default values so that position i exists. */
  function Resized<T>(v: seq<T>, i: nat, default: T): (r: seq<T>)
    ensures |r| == if |v| <= i then i + 1 else |v|
    ensures forall k :: 0 <= k < |r| ==> r[k] == if k < |v| then v[k] else default
  {
    if |v| <= i then v + seq(i + 1 - |v|, _ => default) else v
  }

  function Stored<T>(v: seq<T>, i: nat, x: T, default: T): (r: seq<T>)
    ensures |r| == if |v| <= i then i + 1 else |v|
    ensures forall k :: 0 <= k < |r| ==> r[k] == if k == i then x else if k < |v| then v[k] else default
  {
    Resized(v, i, default)[i := x]
  }

  // ---------------------------------------------------------------- paying and confirming

  function Received(rules: Rules, txs: seq<Transaction>): real {
    if txs == [] then 0.0
    else Received(rules, txs[..|txs| - 1]) +
         if txs[|txs| - 1].destination == rules.self then txs[|txs| - 1].amount else 0.0
  }

  /** What a block is worth to this node. */
  function BlockValue(rules: Rules, b: Block): real {
    Received(rules, b.transactions) +
    if b.miner == rules.self then rules.blockReward + rules.transactionReward * |b.transactions| as real else 0.0
  }

  /** An empty block is worth the block reward to its miner and nothing to others, and each transaction adds the
    * transaction reward for the miner and the amount for its destination. */
  lemma BlockValueByTransactions(rules: Rules, b: Block, tx: Transaction)
    ensures b.transactions == [] ==> BlockValue(rules, b) == if b.miner == rules.self then rules.blockReward else 0.0
    ensures BlockValue(rules, b.(transactions := b.transactions + [tx])) == BlockValue(rules, b) +
      (if b.miner == rules.self then rules.transactionReward else 0.0) +
      (if tx.destination == rules.self then tx.amount else 0.0)
  {
    var n := |b.transactions|;
    assert (b.transactions + [tx])[..n] == b.transactions;
    OneMoreReward(rules.transactionReward, n);
  }

  lemma OneMoreReward(reward: real, n: nat)
    ensures reward * (n + 1) as real == reward * n as real + reward
  {
  }

  /** A transaction reward for every transaction, and the amounts. */
  function TransactionsWorth(reward: real, txs: seq<Transaction>): real {
    if txs == [] then 0.0
    else TransactionsWorth(reward, txs[..|txs| - 1]) + reward + txs[|txs| - 1].amount
  }

  /** What a block is worth to the nodes listed, all together. */
  function WorthTo(nodes: seq<nat>, rules: Rules, b: Block): real {
    if nodes == [] then 0.0
    else WorthTo(nodes[..|nodes| - 1], rules, b) + BlockValue(rules.(self := nodes[|nodes| - 1]), b)
  }

  ghost predicate OnceEach(nodes: seq<nat>) {
    forall i, j :: 0 <= i < j < |nodes| ==> nodes[i] != nodes[j]
  }

  lemma {:induction false} EmptyBlockWorth(nodes: seq<nat>, rules: Rules, b: Block)
    requires OnceEach(nodes) && b.transactions == []
    ensures WorthTo(nodes, rules, b) == if b.miner in nodes then rules.blockReward else 0.0
  {
    if nodes != [] {
      var front, last := nodes[..|nodes| - 1], nodes[|nodes| - 1];
      EmptyBlockWorth(front, rules, b);
      assert nodes == front + [last];
      BlockValueByTransactions(rules.(self := last), b, Transaction(0, 0, 0.0, 0));
    }
  }

  lemma {:induction false} OneMoreWorth(nodes: seq<nat>, rules: Rules, b: Block, tx: Transaction)
    requires OnceEach(nodes)
    ensures WorthTo(nodes, rules, b.(transactions := b.transactions + [tx])) == WorthTo(nodes, rules, b) +
      (if b.miner in nodes then rules.transactionReward else 0.0) +
      (if tx.destination in nodes then tx.amount else 0.0)
  {
    if nodes != [] {
      var front, last := nodes[..|nodes| - 1], nodes[|nodes| - 1];
      OneMoreWorth(front, rules, b, tx);
      assert nodes == front + [last];
      BlockValueByTransactions(rules.(self := last), b, tx);
    }
  }

  /** Nothing is made or lost: to all nodes together, in whatever number they are, a block is worth one block reward,
    * one transaction reward for each of its transactions, and the amounts. */
  lemma {:induction false} BlockWorthIsConserved(nodes: seq<nat>, rules: Rules, b: Block)
    requires OnceEach(nodes) && b.miner in nodes && forall tx :: tx in b.transactions ==> tx.destination in nodes
    ensures WorthTo(nodes, rules, b) == rules.blockReward + TransactionsWorth(rules.transactionReward, b.transactions)
    decreases |b.transactions|
  {
    if b.transactions == [] {
      EmptyBlockWorth(nodes, rules, b);
    } else {
      var front, last := b.transactions[..|b.transactions| - 1], b.transactions[|b.transactions| - 1];
      var fewer := b.(transactions := front);
      BlockWorthIsConserved(nodes, rules, fewer);
      OneMoreWorth(nodes, rules, fewer, last);
      assert front + [last] == b.transactions;
      assert fewer.(transactions := fewer.transactions + [last]) == b;
    }
  }

  /** A node that did not mine a block gets what is addressed to it, and no more. */
  lemma OthersGetAmounts(rules: Rules, b: Block)
    requires b.miner != rules.self
    ensures BlockValue(rules, b) == TransactionsWorth(0.0, AddressedTo(rules.self, b.transactions))
  {
    ReceivedIsAddressed(rules, b.transactions);
  }

  lemma {:induction false} ReceivedIsAddressed(rules: Rules, txs: seq<Transaction>)
    ensures Received(rules, txs) == TransactionsWorth(0.0, AddressedTo(rules.self, txs))
  {
    if txs != [] {
      var front, last := txs[..|txs| - 1], txs[|txs| - 1];
      ReceivedIsAddressed(rules, front);
      WorthOfOneMore(AddressedTo(rules.self, front), last);
      assert last.destination != rules.self ==> AddressedTo(rules.self, txs) == AddressedTo(rules.self, front);
    }
  }

  lemma WorthOfOneMore(txs: seq<Transaction>, tx: Transaction)
    ensures TransactionsWorth(0.0, txs + [tx]) == TransactionsWorth(0.0, txs) + tx.amount
  {
    assert (txs + [tx])[..|txs|] == txs;
  }

  function AddressedTo(n: nat, txs: seq<Transaction>): seq<Transaction> {
    if txs == [] then []
    else AddressedTo(n, txs[..|txs| - 1]) + if txs[|txs| - 1].destination == n then [txs[|txs| - 1]] else []
  }

  function IdsOf(txs: seq<Transaction>): set<nat> {
    set tx | tx in txs :: tx.id
  }

  function Ids(b: Block): set<nat> {
    IdsOf(b.transactions)
  }

  datatype Event = Confirm(i: nat) | Unconfirm(i: nat)

  /** The indices form a tree: every index but 0 has its parent below it, one level up. */
  ghost predicate Tree(bc: seq<Block>, lengths: seq<nat>, i: nat)
    decreases i
  {
    && i < |bc| && i < |lengths|
    && if i == 0 then lengths[0] == 1
       else bc[i].parent < i && lengths[i] == lengths[bc[i].parent] + 1 && Tree(bc, lengths, bc[i].parent)
  }

  lemma {:induction false} TreeLength(bc: seq<Block>, lengths: seq<nat>, i: nat)
    requires Tree(bc, lengths, i)
    ensures lengths[i] >= 1 && (lengths[i] == 1 <==> i == 0)
    decreases i
  {
    if i > 0 {
      TreeLength(bc, lengths, bc[i].parent);
    }
  }

  /** The path from a block down to, but without, the genesis block. */
  ghost function Path(bc: seq<Block>, lengths: seq<nat>, i: nat): set<nat>
    requires Tree(bc, lengths, i)
    decreases i
  {
    if i == 0 then {} else {i} + Path(bc, lengths, bc[i].parent)
  }

  ghost function PathValue(rules: Rules, bc: seq<Block>, lengths: seq<nat>, i: nat): real
    requires Tree(bc, lengths, i)
    decreases i
  {
    if i == 0 then 0.0 else BlockValue(rules, bc[i]) + PathValue(rules, bc, lengths, bc[i].parent)
  }

  ghost predicate OnPath(bc: seq<Block>, lengths: seq<nat>, i: nat, tx: nat)
    requires Tree(bc, lengths, i)
    decreases i
  {
    i != 0 && (tx in Ids(bc[i]) || OnPath(bc, lengths, bc[i].parent, tx))
  }

  /** A transaction is on the path exactly when some block of the path contains it. */
  lemma {:induction false} OnPathMeans(bc: seq<Block>, lengths: seq<nat>, i: nat, tx: nat)
    requires Tree(bc, lengths, i)
    ensures OnPath(bc, lengths, i, tx) <==>
      exists a :: a in Path(bc, lengths, i) && a < |bc| && tx in Ids(bc[a])
    decreases i
  {
    if i != 0 {
      OnPathMeans(bc, lengths, bc[i].parent, tx);
      if tx in Ids(bc[i]) {
        assert i in Path(bc, lengths, i);
      }
    }
  }

  /** Blocks further down a path are strictly shorter. */
  lemma {:induction false} PathIsShorter(bc: seq<Block>, lengths: seq<nat>, i: nat, a: nat)
    requires Tree(bc, lengths, i) && a in Path(bc, lengths, i)
    ensures 0 < a < |lengths| && Tree(bc, lengths, a) && lengths[a] <= lengths[i]
    ensures a != i ==> lengths[a] < lengths[i]
    decreases i
  {
    if a != i {
      PathIsShorter(bc, lengths, bc[i].parent, a);
    }
  }

  /** The walk of `update_head` from a new head and the old one to where their paths meet. */
  ghost function Walk(bc: seq<Block>, lengths: seq<nat>, new_: nat, old_: nat): seq<Event>
    requires Tree(bc, lengths, new_) && Tree(bc, lengths, old_)
    requires lengths[new_] >= lengths[old_]
    decreases new_ + old_
  {
    TreeLength(bc, lengths, new_);
    TreeLength(bc, lengths, old_);
    if lengths[new_] > lengths[old_] then
      [Confirm(new_)] + Walk(bc, lengths, bc[new_].parent, old_)
    else if new_ != old_ then
      [Confirm(new_), Unconfirm(old_)] + Walk(bc, lengths, bc[new_].parent, bc[old_].parent)
    else []
  }

  /** The walk confirms exactly the blocks of the new path only, and unconfirms exactly those of the old one only. */
  lemma {:induction false} WalkIsExact(bc: seq<Block>, lengths: seq<nat>, new_: nat, old_: nat, i: nat)
    requires Tree(bc, lengths, new_) && Tree(bc, lengths, old_)
    requires lengths[new_] >= lengths[old_]
    ensures Confirm(i) in Walk(bc, lengths, new_, old_) <==>
      i in Path(bc, lengths, new_) && i !in Path(bc, lengths, old_)
    ensures Unconfirm(i) in Walk(bc, lengths, new_, old_) <==>
      i in Path(bc, lengths, old_) && i !in Path(bc, lengths, new_)
    decreases new_ + old_
  {
    TreeLength(bc, lengths, new_);
    TreeLength(bc, lengths, old_);
    if i in Path(bc, lengths, new_) {
      PathIsShorter(bc, lengths, new_, i);
    }
    if i in Path(bc, lengths, old_) {
      PathIsShorter(bc, lengths, old_, i);
    }
    if lengths[new_] > lengths[old_] {
      WalkIsExact(bc, lengths, bc[new_].parent, old_, i);
    } else if new_ != old_ {
      WalkIsExact(bc, lengths, bc[new_].parent, bc[old_].parent, i);
    }
  }

  /** No block is confirmed or unconfirmed twice. */
  lemma {:induction false} WalkHasNoRepeats(bc: seq<Block>, lengths: seq<nat>, new_: nat, old_: nat)
    requires Tree(bc, lengths, new_) && Tree(bc, lengths, old_)
    requires lengths[new_] >= lengths[old_]
    ensures var w := Walk(bc, lengths, new_, old_); forall i, j :: 0 <= i < j < |w| ==> w[i] != w[j]
    decreases new_ + old_
  {
    TreeLength(bc, lengths, new_);
    TreeLength(bc, lengths, old_);
    if lengths[new_] > lengths[old_] {
      var p := bc[new_].parent;
      WalkHasNoRepeats(bc, lengths, p, old_);
      WalkIsExact(bc, lengths, p, old_, new_);
      if new_ in Path(bc, lengths, p) {
        PathIsShorter(bc, lengths, p, new_);
      }
    } else if new_ != old_ {
      var p, q := bc[new_].parent, bc[old_].parent;
      WalkHasNoRepeats(bc, lengths, p, q);
      WalkIsExact(bc, lengths, p, q, new_);
      WalkIsExact(bc, lengths, p, q, old_);
      if new_ in Path(bc, lengths, p) {
        PathIsShorter(bc, lengths, p, new_);
      }
      if old_ in Path(bc, lengths, q) {
        PathIsShorter(bc, lengths, q, old_);
      }
    }
  }

  /** What confirming and unconfirming changes. */
  datatype Books = Books(balance: real, pending: set<nat>)

  function Post(rules: Rules, bc: seq<Block>, books: Books, e: Event): Books
    requires e.i < |bc|
  {
    match e
    case Confirm(i) => Books(books.balance + BlockValue(rules, bc[i]), books.pending - Ids(bc[i]))
    case Unconfirm(i) => Books(books.balance - BlockValue(rules, bc[i]), books.pending + Ids(bc[i]))
  }

  /** The books after the walk, posting its events in order. */
  ghost function Reorganised(rules: Rules, bc: seq<Block>, lengths: seq<nat>, books: Books, new_: nat, old_: nat): Books
    requires Tree(bc, lengths, new_) && Tree(bc, lengths, old_)
    requires lengths[new_] >= lengths[old_]
    decreases new_ + old_
  {
    TreeLength(bc, lengths, new_);
    TreeLength(bc, lengths, old_);
    if lengths[new_] > lengths[old_] then
      Reorganised(rules, bc, lengths, Post(rules, bc, books, Confirm(new_)), bc[new_].parent, old_)
    else if new_ != old_ then
      Reorganised(rules, bc, lengths,
        Post(rules, bc, Post(rules, bc, books, Confirm(new_)), Unconfirm(old_)), bc[new_].parent, bc[old_].parent)
    else books
  }

  ghost function Posted(rules: Rules, bc: seq<Block>, books: Books, events: seq<Event>): Books
    requires forall e :: e in events ==> e.i < |bc|
    decreases |events|
  {
    if events == [] then books else Posted(rules, bc, Post(rules, bc, books, events[0]), events[1..])
  }

  lemma {:induction false} ReorganisedIsPostedWalk(rules: Rules, bc: seq<Block>, lengths: seq<nat>, books: Books,
                                                   new_: nat, old_: nat)
    requires Tree(bc, lengths, new_) && Tree(bc, lengths, old_)
    requires lengths[new_] >= lengths[old_]
    ensures var w := Walk(bc, lengths, new_, old_);
      && (forall e :: e in w ==> e.i < |bc|)
      && Reorganised(rules, bc, lengths, books, new_, old_) == Posted(rules, bc, books, w)
    decreases new_ + old_
  {
    TreeLength(bc, lengths, new_);
    TreeLength(bc, lengths, old_);
    var w := Walk(bc, lengths, new_, old_);
    if lengths[new_] > lengths[old_] {
      var rest := Walk(bc, lengths, bc[new_].parent, old_);
      ReorganisedIsPostedWalk(rules, bc, lengths, Post(rules, bc, books, Confirm(new_)), bc[new_].parent, old_);
      assert w[1..] == rest;
    } else if new_ != old_ {
      var rest := Walk(bc, lengths, bc[new_].parent, bc[old_].parent);
      var books1 := Post(rules, bc, books, Confirm(new_));
      ReorganisedIsPostedWalk(rules, bc, lengths, Post(rules, bc, books1, Unconfirm(old_)),
                              bc[new_].parent, bc[old_].parent);
      assert w[1..] == [Unconfirm(old_)] + rest;
      assert w[1..][1..] == rest;
      assert Posted(rules, bc, books1, w[1..]) == Posted(rules, bc, Post(rules, bc, books1, Unconfirm(old_)), rest);
    }
  }

  /** A reorganisation moves the balance by the difference between the two paths. */
  lemma {:induction false} ReorganisedBalance(rules: Rules, bc: seq<Block>, lengths: seq<nat>, books: Books,
                                              new_: nat, old_: nat)
    requires Tree(bc, lengths, new_) && Tree(bc, lengths, old_)
    requires lengths[new_] >= lengths[old_]
    ensures Reorganised(rules, bc, lengths, books, new_, old_).balance ==
      books.balance + PathValue(rules, bc, lengths, new_) - PathValue(rules, bc, lengths, old_)
    decreases new_ + old_
  {
    TreeLength(bc, lengths, new_);
    TreeLength(bc, lengths, old_);
    if lengths[new_] > lengths[old_] {
      ReorganisedBalance(rules, bc, lengths, Post(rules, bc, books, Confirm(new_)), bc[new_].parent, old_);
    } else if new_ != old_ {
      ReorganisedBalance(rules, bc, lengths,
        Post(rules, bc, Post(rules, bc, books, Confirm(new_)), Unconfirm(old_)), bc[new_].parent, bc[old_].parent);
    }
  }

  /** Some event of the walk from position k on is about a block with the transaction. */
  ghost predicate Touched(bc: seq<Block>, events: seq<Event>, k: nat, tx: nat) {
    exists j :: k <= j < |events| && events[j].i < |bc| && tx in Ids(bc[events[j].i])
  }

  /** The last event about a block with the transaction unconfirms that block. */
  ghost predicate LeftUnconfirmed(bc: seq<Block>, events: seq<Event>, tx: nat) {
    exists j :: 0 <= j < |events| && events[j].Unconfirm? && events[j].i < |bc| && tx in Ids(bc[events[j].i])
      && !Touched(bc, events, j + 1, tx)
  }

  lemma {:induction false} PostedPending(rules: Rules, bc: seq<Block>, books: Books, events: seq<Event>, tx: nat)
    requires forall e :: e in events ==> e.i < |bc|
    ensures tx in Posted(rules, bc, books, events).pending <==>
      LeftUnconfirmed(bc, events, tx) || (tx in books.pending && !Touched(bc, events, 0, tx))
    decreases |events|
  {
    if events != [] {
      var e, rest := events[0], events[1..];
      PostedPending(rules, bc, Post(rules, bc, books, e), rest, tx);
      TouchedLater(bc, events, tx);
      UnconfirmedLater(bc, events, tx);
    }
  }

  lemma TouchedLater(bc: seq<Block>, events: seq<Event>, tx: nat)
    requires events != []
    ensures forall k: nat {:trigger Touched(bc, events[1..], k, tx)} ::
      Touched(bc, events[1..], k, tx) <==> Touched(bc, events, k + 1, tx)
    ensures Touched(bc, events, 0, tx) <==>
      (events[0].i < |bc| && tx in Ids(bc[events[0].i])) || Touched(bc, events, 1, tx)
  {
    var rest := events[1..];
    forall k: nat
      ensures Touched(bc, rest, k, tx) <==> Touched(bc, events, k + 1, tx)
    {
      if Touched(bc, events, k + 1, tx) {
        var j :| k + 1 <= j < |events| && events[j].i < |bc| && tx in Ids(bc[events[j].i]);
        assert rest[j - 1] == events[j];
      }
      if Touched(bc, rest, k, tx) {
        var j :| k <= j < |rest| && rest[j].i < |bc| && tx in Ids(bc[rest[j].i]);
        assert rest[j] == events[j + 1];
      }
    }
  }

  lemma UnconfirmedLater(bc: seq<Block>, events: seq<Event>, tx: nat)
    requires events != []
    ensures LeftUnconfirmed(bc, events, tx) <==>
      || LeftUnconfirmed(bc, events[1..], tx)
      || (events[0].Unconfirm? && events[0].i < |bc| && tx in Ids(bc[events[0].i]) && !Touched(bc, events[1..], 0, tx))
  {
    var rest := events[1..];
    TouchedLater(bc, events, tx);
    if LeftUnconfirmed(bc, events, tx) {
      var j :| 0 <= j < |events| && events[j].Unconfirm? && events[j].i < |bc| && tx in Ids(bc[events[j].i])
        && !Touched(bc, events, j + 1, tx);
      if j > 0 {
        assert rest[j - 1] == events[j] && !Touched(bc, rest, j, tx);
      } else {
        assert !Touched(bc, rest, 0, tx);
      }
    }
    if LeftUnconfirmed(bc, rest, tx) {
      var j :| 0 <= j < |rest| && rest[j].Unconfirm? && rest[j].i < |bc| && tx in Ids(bc[rest[j].i])
        && !Touched(bc, rest, j + 1, tx);
      assert events[j + 1] == rest[j] && !Touched(bc, events, j + 2, tx);
    }
  }

  /** After a reorganisation exactly those transactions are pending of which the last block on the walk was
    * unconfirmed, and those that were pending and are in no block of the walk. */
  lemma ReorganisedPending(rules: Rules, bc: seq<Block>, lengths: seq<nat>, books: Books, new_: nat, old_: nat, tx: nat)
    requires Tree(bc, lengths, new_) && Tree(bc, lengths, old_)
    requires lengths[new_] >= lengths[old_]
    ensures var w := Walk(bc, lengths, new_, old_);
      tx in Reorganised(rules, bc, lengths, books, new_, old_).pending <==>
        LeftUnconfirmed(bc, w, tx) || (tx in books.pending && !Touched(bc, w, 0, tx))
  {
    ReorganisedIsPostedWalk(rules, bc, lengths, books, new_, old_);
    PostedPending(rules, bc, books, Walk(bc, lengths, new_, old_), tx);
  }

  /** A transaction that was pending or on the old path is afterwards pending or on the new path. */
  lemma {:induction false} ReorganisedLosesNothing(rules: Rules, bc: seq<Block>, lengths: seq<nat>, books: Books,
                                                   new_: nat, old_: nat, tx: nat)
    requires Tree(bc, lengths, new_) && Tree(bc, lengths, old_)
    requires lengths[new_] >= lengths[old_]
    requires tx in books.pending || OnPath(bc, lengths, old_, tx)
    ensures tx in Reorganised(rules, bc, lengths, books, new_, old_).pending || OnPath(bc, lengths, new_, tx)
    decreases new_ + old_
  {
    TreeLength(bc, lengths, new_);
    TreeLength(bc, lengths, old_);
    if lengths[new_] > lengths[old_] {
      if tx !in Ids(bc[new_]) {
        ReorganisedLosesNothing(rules, bc, lengths, Post(rules, bc, books, Confirm(new_)), bc[new_].parent, old_, tx);
      }
    } else if new_ != old_ {
      if tx !in Ids(bc[new_]) {
        ReorganisedLosesNothing(rules, bc, lengths,
          Post(rules, bc, Post(rules, bc, books, Confirm(new_)), Unconfirm(old_)),
          bc[new_].parent, bc[old_].parent, tx);
      }
    }
  }

  /** A new node: the genesis block at index 0, under the id it drew. */
  function Fresh(genesisId: nat, balance: real): Ledger {
    Ledger([Block(genesisId, 0, MISSING, [])], [], [1, 0], 0, balance, {})
  }

  // ---------------------------------------------------------------- the critical section of handle_block

  /** The attached blocks form a tree over the genesis block, and the head is one of the longest. */
  ghost predicate Sound(l: Ledger) {
    && Attached(l, 0) && l.lengths != [] && l.lengths[0] == 1
    && AllRooted(l)
    && Attached(l, l.head) && l.head < |l.lengths|
    && (forall i: nat :: Attached(l, i) && i < |l.lengths| ==> l.lengths[i] <= l.lengths[l.head])
  }

  ghost predicate AllRooted(l: Ledger) {
    forall i: nat {:trigger Rooted(l, i)} :: 0 < i && Attached(l, i) ==> Rooted(l, i)
  }

  ghost predicate Rooted(l: Ledger, i: nat)
    requires i < |l.blockchain|
  {
    var b := l.blockchain[i];
    && b.id == i && b.parent < i && Attached(l, b.parent)
    && i < |l.lengths| && b.parent < |l.lengths| && l.lengths[i] == l.lengths[b.parent] + 1
  }

  lemma {:induction false} AttachedTree(l: Ledger, i: nat)
    requires Attached(l, 0) && l.lengths != [] && l.lengths[0] == 1
    requires AllRooted(l) && Attached(l, i)
    ensures Tree(l.blockchain, l.lengths, i)
    decreases i
  {
    if i > 0 {
      assert Rooted(l, i);
      AttachedTree(l, l.blockchain[i].parent);
    }
  }

  /** Switching to a longer head. */
  ghost function UpdateHead(rules: Rules, l: Ledger, newHead: nat): Ledger
    requires Tree(l.blockchain, l.lengths, newHead) && Tree(l.blockchain, l.lengths, l.head)
    requires l.lengths[newHead] >= l.lengths[l.head]
  {
    var books := Reorganised(rules, l.blockchain, l.lengths, Books(l.balance, l.pendingTransactions), newHead, l.head);
    l.(head := newHead, balance := books.balance, pendingTransactions := books.pending)
  }

  /** What is left to do after the lock is released: pass the children on, and perhaps forward. */
  datatype Outcome = Outcome(ledger: Ledger, forward: bool, children: seq<Block>)

  ghost function Park(l: Ledger, b: Block): Ledger
    requires WellFormed(b)
  {
    var bc := Stored(l.blockchain, b.id, b, NO_BLOCK);
    var pb := Resized(l.pendingBlocks, b.id, []);
    l.(blockchain := bc[b.id := b.(id := PARKED)], pendingBlocks := pb[b.parent := pb[b.parent] + [b]])
  }

  /** The block goes under its parent; the head is not looked at yet. */
  ghost function Attach(l: Ledger, b: Block): Ledger
    requires WellFormed(b) && b.parent < |l.lengths|
  {
    l.(blockchain := Stored(l.blockchain, b.id, b, NO_BLOCK),
       lengths := Stored(l.lengths, b.id, l.lengths[b.parent] + 1, 0),
       pendingBlocks := Resized(l.pendingBlocks, b.id, [])[b.id := []])
  }

  ghost predicate AlreadyAttached(l: Ledger, b: Block) {
    b.id < |l.blockchain| && l.blockchain[b.id].id == b.id
  }

  ghost function Critical(rules: Rules, l: Ledger, b: Block): Outcome
    requires Sound(l) && WellFormed(b)
  {
    var forward := !Known(l, b.id);
    if AlreadyAttached(l, b) then Outcome(l, forward, [])
    else if !Attached(l, b.parent) then Outcome(Park(l, b), forward, [])
    else
      AttachIsSound(l, b);
      var l1 := Attach(l, b);
      var children := Resized(l.pendingBlocks, b.id, [])[b.id];
      if l1.lengths[b.id] > l1.lengths[l1.head] then Outcome(UpdateHead(rules, l1, b.id), forward, children)
      else Outcome(l1, forward, children)
  }

  lemma AttachedLength(l: Ledger, i: nat)
    requires Sound(l) && Attached(l, i)
    ensures i < |l.lengths| && l.lengths[i] <= l.lengths[l.head]
  {
    assert i > 0 ==> Rooted(l, i);
  }

  /** One more block is attached, under an attached parent, and nothing else moves. */
  lemma AttachGrows(l: Ledger, b: Block)
    requires Sound(l) && WellFormed(b) && !AlreadyAttached(l, b) && Attached(l, b.parent)
    ensures b.parent < |l.lengths| && !Attached(l, b.id)
    ensures var l1 := Attach(l, b);
      && (forall i: nat :: Attached(l1, i) <==> Attached(l, i) || i == b.id)
      && Rooted(l1, b.id)
      && AllRooted(l1)
  {
    AttachedLength(l, b.parent);
    assert Attached(l, b.id) ==> Rooted(l, b.id);
    var l1 := Attach(l, b);
    forall i: nat | 0 < i && Attached(l1, i) ensures Rooted(l1, i) {
      if i != b.id {
        assert Rooted(l, i);
      }
    }
  }

  ghost function Longer(l: Ledger, i: nat): Ledger
    requires i < |l.lengths| && l.head < |l.lengths|
  {
    if l.lengths[i] > l.lengths[l.head] then l.(head := i) else l
  }

  lemma AttachIsSound(l: Ledger, b: Block)
    requires Sound(l) && WellFormed(b) && !AlreadyAttached(l, b) && Attached(l, b.parent)
    ensures b.parent < |l.lengths|
    ensures var l1 := Attach(l, b);
      && b.id < |l1.lengths| && l1.head < |l1.lengths|
      && Tree(l1.blockchain, l1.lengths, b.id) && Tree(l1.blockchain, l1.lengths, l1.head)
      && l1.lengths[b.id] <= l1.lengths[l1.head] + 1
      && Sound(Longer(l1, b.id))
  {
    AttachGrows(l, b);
    AttachedLength(l, b.parent);
    var l1 := Attach(l, b);
    var l2 := Longer(l1, b.id);
    forall i: nat | Attached(l2, i) && i < |l2.lengths| ensures l2.lengths[i] <= l2.lengths[l2.head] {
      assert Attached(l1, i);
      if i != b.id {
        AttachedLength(l, i);
      }
    }
    forall i: nat | 0 < i && Attached(l2, i) ensures Rooted(l2, i) {
      assert Attached(l1, i) && Rooted(l1, i);
    }
    assert Attached(l1, l2.head);
    AttachedTree(l1, b.id);
    AttachedTree(l1, l1.head);
  }

  /** The same outcome, in the order in which the code gets there: the children are taken out last. */
  lemma AttachInOrder(rules: Rules, l: Ledger, b: Block)
    requires Sound(l) && WellFormed(b) && !AlreadyAttached(l, b) && Attached(l, b.parent)
    ensures b.parent < |l.lengths|
    ensures
      var l1 := l.(blockchain := Stored(l.blockchain, b.id, b, NO_BLOCK),
                   lengths := Stored(l.lengths, b.id, l.lengths[b.parent] + 1, 0),
                   pendingBlocks := Resized(l.pendingBlocks, b.id, []));
      && b.id < |l1.lengths| && l1.head < |l1.lengths|
      && Tree(l1.blockchain, l1.lengths, b.id) && Tree(l1.blockchain, l1.lengths, l1.head)
      && var l2 := if l1.lengths[b.id] > l1.lengths[l1.head] then UpdateHead(rules, l1, b.id) else l1;
      Critical(rules, l, b) ==
        Outcome(l2.(pendingBlocks := l2.pendingBlocks[b.id := []]), !Known(l, b.id), l2.pendingBlocks[b.id])
  {
    AttachIsSound(l, b);
  }

  /** A head change makes the chain longer by exactly one block, and only the block at hand can become head. */
  lemma HeadGrowsByOne(rules: Rules, l: Ledger, b: Block)
    requires Sound(l) && WellFormed(b)
    ensures var l' := Critical(rules, l, b).ledger;
      && Sound(l')
      && (l'.head == l.head || (l'.head == b.id && !Attached(l, b.id)))
      && l.head < |l'.lengths| && l'.lengths[l.head] == l.lengths[l.head]
      && (l'.head != l.head ==> l'.lengths[l'.head] == l.lengths[l.head] + 1)
  {
    if AlreadyAttached(l, b) {
    } else if !Attached(l, b.parent) {
      ParkIsSound(l, b);
    } else {
      AttachGrows(l, b);
      AttachIsSound(l, b);
      SoundIgnoresBooks(Longer(Attach(l, b), b.id), Critical(rules, l, b).ledger);
    }
  }

  lemma SoundIgnoresBooks(l: Ledger, l': Ledger)
    requires Sound(l)
    requires l'.blockchain == l.blockchain && l'.lengths == l.lengths && l'.head == l.head
    ensures Sound(l')
  {
    forall i: nat | 0 < i && Attached(l', i) ensures Rooted(l', i) {
      assert Rooted(l, i);
    }
    forall i: nat | Attached(l', i) && i < |l'.lengths| ensures l'.lengths[i] <= l'.lengths[l'.head] {
      assert Attached(l, i);
    }
  }

  lemma ParkIsSound(l: Ledger, b: Block)
    requires Sound(l) && WellFormed(b) && !AlreadyAttached(l, b)
    ensures !Attached(l, b.id) && Sound(Park(l, b))
    ensures forall i: nat :: Attached(Park(l, b), i) <==> Attached(l, i)
  {
    assert Attached(l, b.id) ==> Rooted(l, b.id);
    var l' := Park(l, b);
    forall i: nat | 0 < i && Attached(l', i) ensures Rooted(l', i) {
      assert Rooted(l, i);
    }
    forall i: nat | Attached(l', i) && i < |l'.lengths| ensures l'.lengths[i] <= l'.lengths[l'.head] {
      assert Attached(l, i);
    }
    assert l.head > 0 ==> Rooted(l, l.head);
  }

  // ---------------------------------------------------------------- balance and transactions

  /** Every attached block and its length are where they were. */
  ghost predicate KeepsAttached(l: Ledger, l': Ledger) {
    forall i: nat :: Attached(l, i) && i < |l.lengths| ==>
      i < |l'.blockchain| && l'.blockchain[i] == l.blockchain[i] && i < |l'.lengths| && l'.lengths[i] == l.lengths[i]
  }

  lemma {:induction false} PathKept(rules: Rules, l: Ledger, l': Ledger, i: nat, tx: nat)
    requires Attached(l, 0) && l.lengths != [] && l.lengths[0] == 1
    requires AllRooted(l) && Attached(l, i) && KeepsAttached(l, l')
    ensures Tree(l.blockchain, l.lengths, i) && Tree(l'.blockchain, l'.lengths, i)
    ensures PathValue(rules, l'.blockchain, l'.lengths, i) == PathValue(rules, l.blockchain, l.lengths, i)
    ensures OnPath(l'.blockchain, l'.lengths, i, tx) <==> OnPath(l.blockchain, l.lengths, i, tx)
    decreases i
  {
    assert Attached(l, 0) && 0 < |l.lengths|;
    if i > 0 {
      assert Rooted(l, i);
      PathKept(rules, l, l', l.blockchain[i].parent, tx);
    }
  }

  /** The balance is a credit plus the worth of the path from the genesis block to the head. */
  ghost predicate Balanced(rules: Rules, l: Ledger, credit: real)
    requires Tree(l.blockchain, l.lengths, l.head)
  {
    l.balance == credit + PathValue(rules, l.blockchain, l.lengths, l.head)
  }

  /** Every transaction seen is pending or in a block of the path to the head. */
  ghost predicate NoneLost(l: Ledger, seen: set<nat>)
    requires Tree(l.blockchain, l.lengths, l.head)
  {
    forall tx :: tx in seen ==> tx in l.pendingTransactions || OnPath(l.blockchain, l.lengths, l.head, tx)
  }

  lemma CriticalKeepsAttached(l: Ledger, b: Block)
    requires Sound(l) && WellFormed(b) && !AlreadyAttached(l, b)
    ensures !Attached(l, b.parent) ==> KeepsAttached(l, Park(l, b))
    ensures Attached(l, b.parent) ==> b.parent < |l.lengths| && KeepsAttached(l, Attach(l, b))
  {
    assert Attached(l, b.id) ==> Rooted(l, b.id);
    assert Attached(l, b.parent) && b.parent > 0 ==> Rooted(l, b.parent);
  }

  /** Whatever block comes in, the balance stays the credit plus the worth of the head's path. */
  lemma CriticalKeepsBalance(rules: Rules, l: Ledger, b: Block, credit: real)
    requires Sound(l) && WellFormed(b)
    requires Tree(l.blockchain, l.lengths, l.head) && Balanced(rules, l, credit)
    ensures var l' := Critical(rules, l, b).ledger;
      Tree(l'.blockchain, l'.lengths, l'.head) && Balanced(rules, l', credit)
  {
    if !AlreadyAttached(l, b) {
      CriticalKeepsAttached(l, b);
      if !Attached(l, b.parent) {
        PathKept(rules, l, Park(l, b), l.head, 0);
      } else {
        var l1 := Attach(l, b);
        AttachIsSound(l, b);
        PathKept(rules, l, l1, l.head, 0);
        if l1.lengths[b.id] > l1.lengths[l1.head] {
          ReorganisedBalance(rules, l1.blockchain, l1.lengths, Books(l.balance, l.pendingTransactions), b.id, l.head);
        }
      }
    }
  }

  /** Whatever block comes in, no transaction seen so far is lost. */
  lemma CriticalLosesNothing(rules: Rules, l: Ledger, b: Block, seen: set<nat>)
    requires Sound(l) && WellFormed(b)
    requires Tree(l.blockchain, l.lengths, l.head) && NoneLost(l, seen)
    ensures var l' := Critical(rules, l, b).ledger;
      Tree(l'.blockchain, l'.lengths, l'.head) && NoneLost(l', seen)
  {
    var l' := Critical(rules, l, b).ledger;
    HeadGrowsByOne(rules, l, b);
    AttachedTree(l', l'.head);
    forall tx | tx in seen
      ensures tx in l'.pendingTransactions || OnPath(l'.blockchain, l'.lengths, l'.head, tx)
    {
      CriticalLosesNot(rules, l, b, tx);
    }
  }

  lemma CriticalLosesNot(rules: Rules, l: Ledger, b: Block, tx: nat)
    requires Sound(l) && WellFormed(b)
    requires Tree(l.blockchain, l.lengths, l.head)
    requires tx in l.pendingTransactions || OnPath(l.blockchain, l.lengths, l.head, tx)
    ensures var l' := Critical(rules, l, b).ledger;
      && Tree(l'.blockchain, l'.lengths, l'.head)
      && (tx in l'.pendingTransactions || OnPath(l'.blockchain, l'.lengths, l'.head, tx))
  {
    if !AlreadyAttached(l, b) {
      CriticalKeepsAttached(l, b);
      if !Attached(l, b.parent) {
        PathKept(rules, l, Park(l, b), l.head, tx);
      } else {
        var l1 := Attach(l, b);
        AttachIsSound(l, b);
        PathKept(rules, l, l1, l.head, tx);
        if l1.lengths[b.id] > l1.lengths[l1.head] {
          ReorganisedLosesNothing(rules, l1.blockchain, l1.lengths, Books(l.balance, l.pendingTransactions),
                                  b.id, l.head, tx);
        }
      }
    }
  }

  /** What is pending changes only with the head, and then as the walk from the new head to the old one says. */
  lemma CriticalPending(rules: Rules, l: Ledger, b: Block, tx: nat)
    requires Sound(l) && WellFormed(b)
    ensures var l' := Critical(rules, l, b).ledger;
      && (l'.head == l.head ==> l'.pendingTransactions == l.pendingTransactions)
      && (l'.head != l.head ==>
        && Tree(l'.blockchain, l'.lengths, l'.head) && Tree(l'.blockchain, l'.lengths, l.head)
        && l'.lengths[l'.head] >= l'.lengths[l.head]
        && var w := Walk(l'.blockchain, l'.lengths, l'.head, l.head);
           tx in l'.pendingTransactions <==>
             LeftUnconfirmed(l'.blockchain, w, tx) || (tx in l.pendingTransactions && !Touched(l'.blockchain, w, 0, tx)))
  {
    if !AlreadyAttached(l, b) && Attached(l, b.parent) {
      AttachIsSound(l, b);
      AttachGrows(l, b);
      var l1 := Attach(l, b);
      if l1.lengths[b.id] > l1.lengths[l1.head] {
        ReorganisedPending(rules, l1.blockchain, l1.lengths, Books(l.balance, l.pendingTransactions), b.id, l.head, tx);
      }
    }
  }

  /** A transaction with a block on either branch: after the reorganisation it is on the head's path and pending. */
  lemma ConfirmedYetPending(rules: Rules, tx: Transaction)
    ensures var bc := [Block(1, 0, MISSING, []), Block(0, 0, 0, []), Block(2, 0, 7, [tx]), Block(3, 0, 8, [tx]), Block(4, 3, 8, [])];
      var lengths := [1, 0, 2, 2, 3];
      && Tree(bc, lengths, 4) && Tree(bc, lengths, 2) && OnPath(bc, lengths, 4, tx.id)
      && tx.id in Reorganised(rules, bc, lengths, Books(0.0, {}), 4, 2).pending
  {
    var bc := [Block(1, 0, MISSING, []), Block(0, 0, 0, []), Block(2, 0, 7, [tx]), Block(3, 0, 8, [tx]), Block(4, 3, 8, [])];
    var lengths := [1, 0, 2, 2, 3];
    assert tx in bc[3].transactions && tx in bc[2].transactions;
    assert Tree(bc, lengths, 3) && OnPath(bc, lengths, 3, tx.id);
    var books := Post(rules, bc, Books(0.0, {}), Confirm(4));
    assert tx.id in Reorganised(rules, bc, lengths, books, 3, 2).pending;
  }

  lemma FreshBooks(rules: Rules, genesisId: nat, balance: real)
    requires 0 < genesisId < PARKED
    ensures var l := Fresh(genesisId, balance);
      Sound(l) && Tree(l.blockchain, l.lengths, l.head) && Balanced(rules, l, balance) && NoneLost(l, {})
  {
  }

  // ---------------------------------------------------------------- which blocks are attached

  /**
    What a node knows, given the blocks it got, by id, and the children it still has to pass to
    `handle_block`: a block that is not attached waits under an unattached parent or is still to be passed on.
  */
  ghost predicate Accounts(l: Ledger, got: map<nat, Block>, todo: multiset<Block>) {
    && Sound(l)
    && AllGot(l, got, todo)
    && AllKnown(l, got)
    && AllWaiting(l, got)
    && AllTodo(l, got, todo)
  }

  ghost predicate AllGot(l: Ledger, got: map<nat, Block>, todo: multiset<Block>) {
    forall i {:trigger GotInv(l, got, todo, i)} :: i in got ==> GotInv(l, got, todo, i)
  }

  ghost predicate AllKnown(l: Ledger, got: map<nat, Block>) {
    forall i: nat {:trigger Known(l, i)} :: 0 < i && Known(l, i) ==> i in got
  }

  ghost predicate AllWaiting(l: Ledger, got: map<nat, Block>) {
    forall p: nat, x {:trigger WaitsUnder(l, got, p, x)} ::
      p < |l.pendingBlocks| && x in l.pendingBlocks[p] ==> WaitsUnder(l, got, p, x)
  }

  ghost predicate AllTodo(l: Ledger, got: map<nat, Block>, todo: multiset<Block>) {
    forall x {:trigger Passable(l, got, x)} :: x in todo ==> Passable(l, got, x)
  }

  ghost predicate Passable(l: Ledger, got: map<nat, Block>, x: Block) {
    x.id in got && got[x.id] == x && Attached(l, x.parent)
  }

  lemma FreshAccounts(genesisId: nat, balance: real)
    requires 0 < genesisId < PARKED
    ensures Accounts(Fresh(genesisId, balance), map[], multiset{})
  {
  }

  ghost predicate GotInv(l: Ledger, got: map<nat, Block>, todo: multiset<Block>, i: nat)
    requires i in got
  {
    var b := got[i];
    && WellFormed(b) && b.id == i && Known(l, i) && i < |l.pendingBlocks|
    && (Attached(l, i) ==> l.blockchain[i] == b)
    && (!Attached(l, i) ==> b in todo || (!Attached(l, b.parent) && b in l.pendingBlocks[b.parent]))
  }

  ghost predicate WaitsUnder(l: Ledger, got: map<nat, Block>, p: nat, x: Block) {
    !Attached(l, p) && x.parent == p && x.id in got && got[x.id] == x
  }

  /** What the critical section takes off the children still to be passed on, and what it adds. */
  ghost function Todo(todo: multiset<Block>, b: Block, children: seq<Block>): multiset<Block> {
    todo - multiset{b} + multiset(children)
  }

  ghost predicate Fits(got: map<nat, Block>, b: Block) {
    WellFormed(b) && (b.id in got ==> got[b.id] == b)
  }

  lemma ParkKeepsGot(l: Ledger, got: map<nat, Block>, todo: multiset<Block>, b: Block, i: nat)
    requires Fits(got, b) && !Attached(l, b.id) && !Attached(l, b.parent) && b !in todo
    requires i in got && i != b.id ==> GotInv(l, got, todo, i)
    requires forall k: nat :: Attached(Park(l, b), k) <==> Attached(l, k)
    ensures i in got || i == b.id ==> GotInv(Park(l, b), got[b.id := b], Todo(todo, b, []), i)
  {
    var l' := Park(l, b);
    assert b in l'.pendingBlocks[b.parent];
    if i in got && i != b.id {
      var x := got[i];
      assert x in todo <==> x in Todo(todo, b, []);
      if x.parent < |l.pendingBlocks| && x in l.pendingBlocks[x.parent] {
        assert x in l'.pendingBlocks[x.parent];
      }
    }
  }

  lemma ParkKeepsAccounts(l: Ledger, got: map<nat, Block>, todo: multiset<Block>, b: Block)
    requires Accounts(l, got, todo) && Fits(got, b)
    requires !AlreadyAttached(l, b) && !Attached(l, b.parent)
    ensures Accounts(Park(l, b), got[b.id := b], Todo(todo, b, []))
  {
    ParkIsSound(l, b);
    var l', got', todo' := Park(l, b), got[b.id := b], Todo(todo, b, []);
    assert b !in todo by { assert b in todo ==> Passable(l, got, b); }
    forall i | i in got' ensures GotInv(l', got', todo', i) {
      assert i in got && i != b.id ==> GotInv(l, got, todo, i);
      ParkKeepsGot(l, got, todo, b, i);
    }
    forall i: nat | 0 < i && Known(l', i) ensures i in got' {
      assert i != b.id ==> Known(l, i);
    }
    forall p: nat, x | p < |l'.pendingBlocks| && x in l'.pendingBlocks[p] ensures WaitsUnder(l', got', p, x) {
      if p < |l.pendingBlocks| && x in l.pendingBlocks[p] {
        assert WaitsUnder(l, got, p, x);
      }
    }
    forall x | x in todo' ensures Passable(l', got', x) {
      assert x in todo && Passable(l, got, x);
    }
  }

  lemma AttachKeepsGot(l: Ledger, got: map<nat, Block>, todo: multiset<Block>, b: Block, l': Ledger, i: nat)
    requires Fits(got, b) && b.parent < |l.lengths|
    requires l'.blockchain == Attach(l, b).blockchain && l'.pendingBlocks == Attach(l, b).pendingBlocks
    requires i in got && i != b.id ==> GotInv(l, got, todo, i)
    requires forall k: nat :: Attached(l', k) <==> Attached(l, k) || k == b.id
    ensures i in got || i == b.id ==>
      GotInv(l', got[b.id := b], Todo(todo, b, Resized(l.pendingBlocks, b.id, [])[b.id]), i)
  {
    if i in got && i != b.id {
      var x := got[i];
      var children := Resized(l.pendingBlocks, b.id, [])[b.id];
      assert x in todo ==> x in Todo(todo, b, children);
      assert x in children ==> x in Todo(todo, b, children);
    }
  }

  lemma AttachKeepsWaiting(l: Ledger, got: map<nat, Block>, b: Block, l': Ledger)
    requires Fits(got, b) && b.parent < |l.lengths| && AllWaiting(l, got)
    requires l'.pendingBlocks == Attach(l, b).pendingBlocks
    requires forall k: nat :: Attached(l', k) <==> Attached(l, k) || k == b.id
    ensures AllWaiting(l', got[b.id := b])
  {
    forall p: nat, x | p < |l'.pendingBlocks| && x in l'.pendingBlocks[p]
      ensures WaitsUnder(l', got[b.id := b], p, x)
    {
      assert p != b.id && p < |l.pendingBlocks| && x in l.pendingBlocks[p];
      assert WaitsUnder(l, got, p, x);
    }
  }

  lemma AttachKeepsAccounts(l: Ledger, got: map<nat, Block>, todo: multiset<Block>, b: Block)
    requires Accounts(l, got, todo) && Fits(got, b)
    requires !AlreadyAttached(l, b) && Attached(l, b.parent)
    ensures b.parent < |l.lengths|
    ensures var l1 := Attach(l, b);
      && b.id < |l1.lengths| && l1.head < |l1.lengths|
      && Accounts(Longer(l1, b.id), got[b.id := b], Todo(todo, b, Resized(l.pendingBlocks, b.id, [])[b.id]))
  {
    AttachGrows(l, b);
    AttachIsSound(l, b);
    var l1 := Attach(l, b);
    var l' := Longer(l1, b.id);
    var children := Resized(l.pendingBlocks, b.id, [])[b.id];
    var got', todo' := got[b.id := b], Todo(todo, b, children);
    forall i: nat ensures Attached(l', i) <==> Attached(l, i) || i == b.id {
      assert Attached(l1, i) <==> Attached(l, i) || i == b.id;
    }
    forall i | i in got' ensures GotInv(l', got', todo', i) {
      assert i in got && i != b.id ==> GotInv(l, got, todo, i);
      AttachKeepsGot(l, got, todo, b, l', i);
    }
    forall i: nat | 0 < i && Known(l', i) ensures i in got' {
      assert i != b.id ==> Known(l, i);
    }
    AttachKeepsWaiting(l, got, b, l');
    forall x | x in todo' ensures Passable(l', got', x) {
      if x in children {
        assert b.id < |l.pendingBlocks| && WaitsUnder(l, got, b.id, x);
      } else {
        assert x in todo && Passable(l, got, x);
      }
    }
  }

  lemma AccountsIgnoreBooks(l: Ledger, l': Ledger, got: map<nat, Block>, todo: multiset<Block>)
    requires Accounts(l, got, todo)
    requires l'.blockchain == l.blockchain && l'.lengths == l.lengths && l'.head == l.head
    requires l'.pendingBlocks == l.pendingBlocks
    ensures Accounts(l', got, todo)
  {
    SoundIgnoresBooks(l, l');
    forall i | i in got ensures GotInv(l', got, todo, i) {
      assert GotInv(l, got, todo, i);
    }
    forall i: nat | 0 < i && Known(l', i) ensures i in got {
      assert Known(l, i);
    }
    forall p: nat, x | p < |l'.pendingBlocks| && x in l'.pendingBlocks[p] ensures WaitsUnder(l', got, p, x) {
      assert WaitsUnder(l, got, p, x);
    }
    forall x | x in todo ensures Passable(l', got, x) {
      assert Passable(l, got, x);
    }
  }

  lemma AttachedNeedsNoTodo(l: Ledger, got: map<nat, Block>, todo: multiset<Block>, b: Block)
    requires Accounts(l, got, todo) && Fits(got, b) && Attached(l, b.id)
    ensures b.id in got && Accounts(l, got, Todo(todo, b, []))
  {
    assert Known(l, b.id);
    var todo' := Todo(todo, b, []);
    forall i | i in got ensures GotInv(l, got, todo', i) {
      assert GotInv(l, got, todo, i);
    }
    forall x | x in todo' ensures Passable(l, got, x) {
      assert x in todo && Passable(l, got, x);
    }
  }

  /** The critical section keeps the accounts, and asks to forward exactly the blocks not had before. */
  lemma CriticalKeepsAccounts(rules: Rules, l: Ledger, got: map<nat, Block>, todo: multiset<Block>, b: Block)
    requires Accounts(l, got, todo) && Fits(got, b)
    ensures var o := Critical(rules, l, b);
      && Accounts(o.ledger, got[b.id := b], Todo(todo, b, o.children))
      && (o.forward <==> b.id !in got)
  {
    assert b.id in got ==> GotInv(l, got, todo, b.id);
    assert Known(l, b.id) ==> b.id in got;
    if AlreadyAttached(l, b) {
      AttachedNeedsNoTodo(l, got, todo, b);
      assert got[b.id := b] == got;
    } else if !Attached(l, b.parent) {
      ParkKeepsAccounts(l, got, todo, b);
    } else {
      AttachKeepsAccounts(l, got, todo, b);
      var o := Critical(rules, l, b);
      AccountsIgnoreBooks(Longer(Attach(l, b), b.id), o.ledger, got[b.id := b], Todo(todo, b, o.children));
    }
  }

  /** A block was received together with all its ancestors. */
  ghost predicate AncestryReceived(got: map<nat, Block>, i: nat)
    decreases i
  {
    i == 0 || (i in got && got[i].parent < i && AncestryReceived(got, got[i].parent))
  }

  ghost function Depth(got: map<nat, Block>, i: nat): nat
    requires AncestryReceived(got, i)
    decreases i
  {
    if i == 0 then 1 else Depth(got, got[i].parent) + 1
  }

  /**
    Once every forwarded child is done, the attached blocks are exactly the received blocks whose whole
    ancestry was received, whatever the order of arrival and however often each came.
  */
  lemma {:induction false} AttachedIffAncestryReceived(l: Ledger, got: map<nat, Block>, i: nat)
    requires Accounts(l, got, multiset{})
    ensures Attached(l, i) <==> AncestryReceived(got, i)
    ensures Attached(l, i) ==> i < |l.lengths| && l.lengths[i] == Depth(got, i)
    decreases i
  {
    if i > 0 {
      if Attached(l, i) {
        assert Known(l, i) && Rooted(l, i) && i in got && GotInv(l, got, multiset{}, i);
        AttachedIffAncestryReceived(l, got, got[i].parent);
      } else if i in got {
        assert GotInv(l, got, multiset{}, i);
        AttachedIffAncestryReceived(l, got, got[i].parent);
      }
    }
  }

  /** Every other received block is parked under its unattached parent. */
  lemma OthersAreParked(l: Ledger, got: map<nat, Block>, i: nat)
    requires Accounts(l, got, multiset{})
    requires i in got && !AncestryReceived(got, i)
    ensures Known(l, i) && !Attached(l, i)
    ensures var p := got[i].parent; !Attached(l, p) && p < |l.pendingBlocks| && got[i] in l.pendingBlocks[p]
  {
    AttachedIffAncestryReceived(l, got, i);
    assert GotInv(l, got, multiset{}, i);
  }

  /** Two nodes that received the same blocks, in whatever order, agree on everything but the tie between heads. */
  lemma OrderDoesNotMatter(l: Ledger, k: Ledger, got: map<nat, Block>, i: nat)
    requires Accounts(l, got, multiset{}) && Accounts(k, got, multiset{})
    ensures Attached(l, i) <==> Attached(k, i)
    ensures Attached(l, i) ==> i < |l.lengths| && i < |k.lengths| && l.lengths[i] == k.lengths[i]
    ensures l.lengths[l.head] == k.lengths[k.head]
  {
    AttachedIffAncestryReceived(l, got, i);
    AttachedIffAncestryReceived(k, got, i);
    AttachedIffAncestryReceived(l, got, l.head);
    AttachedIffAncestryReceived(k, got, l.head);
    AttachedIffAncestryReceived(l, got, k.head);
    AttachedIffAncestryReceived(k, got, k.head);
  }

  // ---------------------------------------------------------------- how many blocks are parked

  /** How many blocks are parked, counting repeats. */
  ghost function Waiting(pending: seq<seq<Block>>): nat {
    if pending == [] then 0 else Waiting(pending[..|pending| - 1]) + |pending[|pending| - 1]|
  }

  lemma {:induction false} WaitingUpdate(pending: seq<seq<Block>>, p: nat, v: seq<Block>)
    requires p < |pending|
    ensures Waiting(pending[p := v]) + |pending[p]| == Waiting(pending) + |v|
  {
    var last := |pending| - 1;
    if p == last {
      assert pending[p := v][..last] == pending[..last];
    } else {
      WaitingUpdate(pending[..last], p, v);
      assert pending[p := v][..last] == pending[..last][p := v];
    }
  }

  lemma {:induction false} WaitingResized(pending: seq<seq<Block>>, n: nat)
    ensures Waiting(pending + seq(n, _ => [])) == Waiting(pending)
  {
    if n == 0 {
      assert pending + seq(n, _ => []) == pending;
    } else {
      var longer: seq<seq<Block>> := pending + seq(n, _ => []);
      WaitingResized(pending, n - 1);
      assert longer[..|longer| - 1] == pending + seq(n - 1, _ => []);
    }
  }

  /** Only parking adds a waiting block; attaching takes the children away. */
  lemma CriticalWaiting(rules: Rules, l: Ledger, b: Block)
    requires Sound(l) && WellFormed(b)
    ensures var o := Critical(rules, l, b);
      && Waiting(o.ledger.pendingBlocks) <= Waiting(l.pendingBlocks) + 1
      && (Attached(l, b.parent) || o.children != [] ==>
           Waiting(o.ledger.pendingBlocks) + |o.children| == Waiting(l.pendingBlocks))
  {
    if !AlreadyAttached(l, b) {
      var pb: seq<seq<Block>> := Resized(l.pendingBlocks, b.id, []);
      WaitingResized(l.pendingBlocks, if |l.pendingBlocks| <= b.id then b.id + 1 - |l.pendingBlocks| else 0);
      assert l.pendingBlocks + seq(0, _ => []) == l.pendingBlocks;
      WaitingUpdate(pb, b.id, []);
      if !Attached(l, b.parent) {
        WaitingUpdate(pb, b.parent, pb[b.parent] + [b]);
      }
    }
  }
}

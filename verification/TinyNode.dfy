/**
  A TinyCoin miner with its fields updated in place: `TinyNode` and the parts of `TinyMiner` that
  follow the pending transactions.  Its methods are proved against the value semantics of TinyChain.

  The ghost fields record what the node was given: every block it got, every transaction it saw, and
  its starting balance less what it spent.
*/
module TinyNode {
  import opened TinyChain

  class Miner {
    const rules: Rules

    var blockchain: seq<Block>
    var pendingBlocks: seq<seq<Block>>
    var receivedTransactions: seq<Transaction>
    var lengths: seq<nat>
    var head: nat
    var balance: real
    var pendingTransactions: set<nat>

    ghost var got: map<nat, Block>
    ghost var seen: set<nat>
    ghost var credit: real

    ghost function View(): Ledger
      reads this
    {
      Ledger(blockchain, pendingBlocks, lengths, head, balance, pendingTransactions)
    }

    /** The accounts are in order, but for the given children that are still to be handled. */
    ghost predicate Valid(todo: multiset<Block>)
      reads this
    {
      && Accounts(View(), got, todo)
      && Tree(blockchain, lengths, head)
      && Balanced(rules, View(), credit)
      && NoneLost(View(), seen)
      && SeenInv(receivedTransactions, seen)
    }

    constructor (rules: Rules, genesisId: nat, startingBalance: real)
      requires 0 < genesisId < PARKED
      ensures Valid(multiset{})
      ensures this.rules == rules && View() == Fresh(genesisId, startingBalance)
      ensures got == map[] && seen == {} && credit == startingBalance && receivedTransactions == []
    {
      this.rules := rules;
      blockchain, pendingBlocks, receivedTransactions := [Block(genesisId, 0, MISSING, [])], [], [];
      lengths, head, balance, pendingTransactions := [1, 0], 0, startingBalance, {};
      got, seen, credit := map[], {}, startingBalance;
      new;
      FreshAccounts(genesisId, startingBalance);
      FreshBooks(rules, genesisId, startingBalance);
    }

    method ComputeBlockValue(b: Block) returns (value: real)
      ensures value == BlockValue(rules, b)
    {
      value := 0.0;
      for i := 0 to |b.transactions|
        invariant value == Received(rules, b.transactions[..i])
      {
        assert b.transactions[..i + 1][..i] == b.transactions[..i];
        if b.transactions[i].destination == rules.self {
          value := value + b.transactions[i].amount;
        }
      }
      assert b.transactions[..|b.transactions|] == b.transactions;
      if b.miner == rules.self {
        value := value + (rules.blockReward + rules.transactionReward * |b.transactions| as real);
      }
    }

    method ConfirmBlock(i: nat)
      requires i < |blockchain|
      modifies this`balance, this`pendingTransactions
      ensures Books(balance, pendingTransactions) ==
        Post(rules, blockchain, old(Books(balance, pendingTransactions)), Confirm(i))
    {
      var value := ComputeBlockValue(blockchain[i]);
      balance := balance + value;
      var txs := blockchain[i].transactions;
      for k := 0 to |txs|
        invariant balance == old(balance) + value
        invariant pendingTransactions == old(pendingTransactions) - IdsOf(txs[..k])
      {
        pendingTransactions := pendingTransactions - {txs[k].id};
        assert txs[..k + 1] == txs[..k] + [txs[k]];
        assert IdsOf(txs[..k + 1]) == IdsOf(txs[..k]) + {txs[k].id};
      }
      assert txs[..|txs|] == txs;
    }

    method UnconfirmBlock(i: nat)
      requires i < |blockchain|
      modifies this`balance, this`pendingTransactions
      ensures Books(balance, pendingTransactions) ==
        Post(rules, blockchain, old(Books(balance, pendingTransactions)), Unconfirm(i))
    {
      var value := ComputeBlockValue(blockchain[i]);
      balance := balance - value;
      var txs := blockchain[i].transactions;
      for k := 0 to |txs|
        invariant balance == old(balance) - value
        invariant pendingTransactions == old(pendingTransactions) + IdsOf(txs[..k])
      {
        pendingTransactions := pendingTransactions + {txs[k].id};
        assert txs[..k + 1] == txs[..k] + [txs[k]];
        assert IdsOf(txs[..k + 1]) == IdsOf(txs[..k]) + {txs[k].id};
      }
      assert txs[..|txs|] == txs;
    }

    method SwitchHead(target: nat)
      requires Tree(blockchain, lengths, target) && Tree(blockchain, lengths, head)
      requires lengths[target] >= lengths[head]
      modifies this`head, this`balance, this`pendingTransactions
      ensures View() == UpdateHead(rules, old(View()), target)
    {
      var oldHead, newHead := head, target;
      head := target;
      ghost var goal := Reorganised(rules, blockchain, lengths, Books(balance, pendingTransactions), newHead, oldHead);
      TreeLength(blockchain, lengths, newHead);
      TreeLength(blockchain, lengths, oldHead);
      while lengths[newHead] > lengths[oldHead]
        invariant head == target
        invariant Tree(blockchain, lengths, newHead) && Tree(blockchain, lengths, oldHead)
        invariant lengths[newHead] >= lengths[oldHead] >= 1 && (lengths[newHead] == 1 <==> newHead == 0)
        invariant goal ==
          Reorganised(rules, blockchain, lengths, Books(balance, pendingTransactions), newHead, oldHead)
        decreases newHead
      {
        ConfirmBlock(newHead);
        newHead := blockchain[newHead].parent;
        TreeLength(blockchain, lengths, newHead);
      }
      while newHead != oldHead
        invariant head == target
        invariant Tree(blockchain, lengths, newHead) && Tree(blockchain, lengths, oldHead)
        invariant lengths[newHead] == lengths[oldHead]
        invariant goal ==
          Reorganised(rules, blockchain, lengths, Books(balance, pendingTransactions), newHead, oldHead)
        decreases newHead
      {
        TreeLength(blockchain, lengths, newHead);
        TreeLength(blockchain, lengths, oldHead);
        ConfirmBlock(newHead);
        UnconfirmBlock(oldHead);
        newHead, oldHead := blockchain[newHead].parent, blockchain[oldHead].parent;
      }
      assert goal == Books(balance, pendingTransactions) by {
        TreeLength(blockchain, lengths, newHead);
      }
    }

    /** The part of `handle_block` under the blockchain lock. */
    method CriticalSection(block: Block) returns (forward: bool, children: seq<Block>)
      requires Sound(View()) && WellFormed(block)
      modifies this`blockchain, this`pendingBlocks, this`lengths, this`head, this`balance, this`pendingTransactions
      ensures Outcome(View(), forward, children) == Critical(rules, old(View()), block)
    {
      forward, children := true, [];
      if block.id < |blockchain| && blockchain[block.id].id != MISSING {
        forward := false;
      }
      if block.id < |blockchain| && blockchain[block.id].id == block.id {
        return;
      }
      blockchain := Stored(blockchain, block.id, block, NO_BLOCK);
      pendingBlocks := Resized(pendingBlocks, block.id, []);
      ghost var parentAttached := Attached(old(View()), block.parent);
      if block.parent < |blockchain| &&
         (blockchain[block.parent].id == MISSING || blockchain[block.parent].id == PARKED) {
        assert !parentAttached;
        blockchain := blockchain[block.id := block.(id := PARKED)];
        pendingBlocks := pendingBlocks[block.parent := pendingBlocks[block.parent] + [block]];
        assert View() == Park(old(View()), block);
        return;
      }
      assert parentAttached;
      children := FinishAttaching(block, old(View()));
    }

    /** The rest of the critical section, when the parent turned out to be attached. */
    method FinishAttaching(block: Block, ghost l: Ledger) returns (children: seq<Block>)
      requires Sound(l) && WellFormed(block) && !AlreadyAttached(l, block) && Attached(l, block.parent)
      requires View() == l.(blockchain := Stored(l.blockchain, block.id, block, NO_BLOCK),
                            pendingBlocks := Resized(l.pendingBlocks, block.id, []))
      modifies this`pendingBlocks, this`lengths, this`head, this`balance, this`pendingTransactions
      ensures Outcome(View(), !Known(l, block.id), children) == Critical(rules, l, block)
    {
      AttachInOrder(rules, l, block);
      lengths := Stored(lengths, block.id, lengths[block.parent] + 1, 0);
      if lengths[block.id] > lengths[head] {
        SwitchHead(block.id);
      }
      children := pendingBlocks[block.id];
      pendingBlocks := pendingBlocks[block.id := []];
    }

    /** The critical section, with its effect on the record of what the node was given. */
    method TakeBlock(block: Block, ghost todo: multiset<Block>) returns (forward: bool, children: seq<Block>)
      requires Valid(todo) && Fits(got, block)
      modifies this
      ensures Valid(Todo(todo, block, children))
      ensures got == old(got)[block.id := block]
      ensures forward <==> block.id !in old(got)
      ensures seen == old(seen) && credit == old(credit) && receivedTransactions == old(receivedTransactions)
      ensures Waiting(pendingBlocks) <= old(Waiting(pendingBlocks)) + 1
      ensures old(Attached(View(), block.parent)) || children != [] ==>
        Waiting(pendingBlocks) + |children| == old(Waiting(pendingBlocks))
      ensures HeadAdvances(old(lengths), old(head), lengths, head)
    {
      ghost var before := View();
      CriticalKeepsAccounts(rules, before, got, todo, block);
      CriticalKeepsBalance(rules, before, block, credit);
      CriticalLosesNothing(rules, before, block, seen);
      HeadGrowsByOne(rules, before, block);
      CriticalWaiting(rules, before, block);
      forward, children := CriticalSection(block);
      got := got[block.id := block];
    }

    /** Handles a block and, through it, every parked descendant it sets free. */
    method HandleBlock(block: Block, ghost todo: multiset<Block>) returns (forward: bool)
      requires Valid(todo) && Fits(got, block)
      modifies this
      ensures Valid(todo - multiset{block})
      ensures got == old(got)[block.id := block]
      ensures forward <==> block.id !in old(got)
      ensures seen == old(seen) && credit == old(credit) && receivedTransactions == old(receivedTransactions)
      ensures old(Attached(View(), block.parent)) ==> Waiting(pendingBlocks) <= old(Waiting(pendingBlocks))
      ensures HeadAdvances(old(lengths), old(head), lengths, head)
      decreases Waiting(pendingBlocks)
    {
      var children;
      forward, children := TakeBlock(block, todo);
      ghost var left := Todo(todo, block, children);
      var i := 0;
      while i < |children|
        invariant 0 <= i <= |children|
        invariant left == todo - multiset{block} + multiset(children[i..])
        invariant Valid(left)
        invariant got == old(got)[block.id := block] && seen == old(seen) && credit == old(credit)
        invariant receivedTransactions == old(receivedTransactions)
        invariant children != [] ==> Waiting(pendingBlocks) < old(Waiting(pendingBlocks))
        invariant children == [] && old(Attached(View(), block.parent)) ==>
          Waiting(pendingBlocks) <= old(Waiting(pendingBlocks))
        invariant HeadAdvances(old(lengths), old(head), lengths, head)
        decreases |children| - i
      {
        var child := children[i];
        assert children[i..] == [child] + children[i + 1..];
        PassableFits(View(), got, left, child);
        var _ := HandleBlock(child, left);
        left := left - multiset{child};
        i := i + 1;
      }
      assert left == todo - multiset{block};
    }

    /** Handles a transaction; tells whether it was new. */
    method HandleTransaction(tx: Transaction, ghost todo: multiset<Block>) returns (isNew: bool)
      requires Valid(todo) && tx.id < MISSING
      modifies this
      ensures Valid(todo)
      ensures isNew <==> tx.id !in old(seen)
      ensures seen == old(seen) + {tx.id}
      ensures View() == old(View()).(pendingTransactions :=
        if isNew then old(pendingTransactions) + {tx.id} else old(pendingTransactions))
      ensures got == old(got) && credit == old(credit)
    {
      if tx.id < |receivedTransactions| && receivedTransactions[tx.id].id != MISSING {
        assert tx.id in seen;
        assert seen + {tx.id} == seen;
        return false;
      }
      receivedTransactions := Stored(receivedTransactions, tx.id, tx, Transaction(0, 0, 0.0, MISSING));
      pendingTransactions := pendingTransactions + {tx.id};
      seen := seen + {tx.id};
      AccountsIgnoreBooks(old(View()), View(), got, todo);
      return true;
    }

    /** Pays out an amount in a new transaction of this node's own. */
    method StartTransaction(tx: Transaction, ghost todo: multiset<Block>)
      requires Valid(todo) && tx.id < MISSING && tx.source == rules.self
      modifies this
      ensures Valid(todo)
      ensures seen == old(seen) + {tx.id}
      ensures balance == old(balance) - tx.amount && credit == old(credit) - tx.amount
      ensures got == old(got) && blockchain == old(blockchain) && head == old(head)
    {
      balance := balance - tx.amount;
      credit := credit - tx.amount;
      AccountsIgnoreBooks(old(View()), View(), got, todo);
      var _ := HandleTransaction(tx, todo);
    }
  }

  /** The head is the old one, or that of a strictly longer chain. */
  predicate HeadAdvances(lengths: seq<nat>, head: nat, lengths': seq<nat>, head': nat) {
    && head < |lengths| && head' < |lengths'|
    && (lengths'[head'] > lengths[head] || (head' == head && lengths'[head'] == lengths[head]))
  }

  lemma PassableFits(l: Ledger, got: map<nat, Block>, todo: multiset<Block>, x: Block)
    requires Accounts(l, got, todo) && x in todo
    ensures Fits(got, x) && got[x.id := x] == got && Attached(l, x.parent)
  {
    assert Passable(l, got, x) && GotInv(l, got, todo, x.id);
  }

  /** The transactions seen are those stored under their id. */
  ghost predicate SeenInv(received: seq<Transaction>, seen: set<nat>) {
    forall id: nat :: id in seen <==> id < |received| && received[id].id != MISSING
  }
}

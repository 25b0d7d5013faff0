/** Every step of the implicit producer and its consumers keeps the invariant. */
module QueueSteps {
  import opened Arith
  import opened BlockIndex
  import opened ImplicitQueue

  // ---------------------------------------------------------------- steps on the index alone

  lemma IndexStep(s: Shared, k: Index)
    requires SharedInv(s) && k.Inv() && Evolves(s.index, k) && k.held == s.index.held && Capacities(k.rings)
    ensures SharedInv(s.(index := k))
  {
    var s' := s.(index := k);
    forall b | 0 <= b < |s.gone|
      ensures BlockInv(s', b)
    {
      assert BlockInv(s, b);
    }
    forall i | s.head <= i < s.tail
      ensures Stored(s', i)
    {
      assert Stored(s, i);
    }
  }

  lemma SeesStays(k: Index, k': Index, h: nat, b: nat)
    requires k.Inv() && Evolves(k, k') && k.Sees(h, b) && b < |k'.held| && k'.held[b] == k.held[b]
    ensures k'.Sees(h, b) && k'.rings.Pos(h, b) == k.rings.Pos(h, b) && k'.rings.EntryOf(b) == k.rings.EntryOf(b)
  {
    assert k'.rings.index[h] == k.rings.index[h];
    assert k.Low() <= b;
  }

  /** What a consumer knows survives a step that leaves its block, its element and its own block of the pool
    * alone. */
  lemma ConsumerStays(s: Shared, s': Shared, t: nat, c: Consumer)
    requires SharedInv(s) && ConsumerInv(s, t, c)
    requires Evolves(s.index, s'.index) && s.head <= s'.head && s.out.Keys <= s'.out.Keys
    requires forall i {:trigger Holds(c, i)} :: Holds(c, i) ==>
               && BlockOf(i) < |s'.index.held| && s'.index.held[BlockOf(i)] == s.index.held[BlockOf(i)]
               && Claimed(s', i) && (!c.Emptying? ==> Stored(s', i) && i !in s'.out)
    requires c.Nulling? ==> s'.index.held[c.b] == s.index.held[c.b] && c.b < |s'.gone| && s'.gone[c.b] == s.gone[c.b]
    requires c.Freeing? ==> c.x < |s'.pool| && s'.pool[c.x].use == s.pool[c.x].use
    ensures ConsumerInv(s', t, c)
  {
    match c
    case Idle =>
    case Finding(i) => assert Holds(c, i);
    case Tailing(i, h) => assert Holds(c, i); SeesStays(s.index, s'.index, h, BlockOf(i));
    case Counting(i, h, p) =>
      assert Holds(c, i);
      SeesStays(s.index, s'.index, h, BlockOf(i));
      assert s'.index.rings.index[h] == s.index.rings.index[h];
      assert s'.index.entries[s.index.rings.index[h][p]].key != INVALID;
    case Looking(i, h, p) => assert Holds(c, i); SeesStays(s.index, s'.index, h, BlockOf(i));
    case Moving(i, e, x) => assert Holds(c, i) && s.index.held[BlockOf(i)].Here?;
    case Emptying(i, e, x) => assert Holds(c, i) && s.index.held[BlockOf(i)].Here?;
    case Nulling(b, e, x) => assert s.index.held[b].Here?;
    case Freeing(x) =>
  }

  lemma EvolvesNot(k: Index)
    requires k.Shaped()
    ensures Evolves(k, k)
  {
  }

  lemma IndexStepConsumer(s: Shared, k: Index, t: nat, c: Consumer)
    requires SharedInv(s) && k.Inv() && Evolves(s.index, k) && k.held == s.index.held && ConsumerInv(s, t, c)
    ensures ConsumerInv(s.(index := k), t, c)
  {
    var s' := s.(index := k);
    forall i | Holds(c, i)
      ensures Claimed(s', i) && (!c.Emptying? ==> Stored(s', i) && i !in s'.out) && BlockOf(i) < |k.held|
    {
      assert c.Emptying? ==> Places(s, BlockOf(i), c.e, c.x);
    }
    ConsumerStays(s, s', t, c);
  }

  // ---------------------------------------------------------------- steps on the pool alone

  /** The blocks in use keep their elements, their counters and their use. */
  ghost predicate PoolKeeps(pool: seq<Memory>, pool': seq<Memory>) {
    && |pool| <= |pool'|
    && forall y {:trigger pool'[y]} :: 0 <= y < |pool| ==>
         && pool'[y].cells == pool[y].cells
         && (pool[y].use.For? ==> pool'[y].use == pool[y].use && pool'[y].emptied == pool[y].emptied)
         && (pool[y].use.Parting? ==> pool'[y].use == pool[y].use)
  }

  lemma PoolStep(s: Shared, pool: seq<Memory>)
    requires SharedInv(s) && PoolKeeps(s.pool, pool)
    requires forall y {:trigger pool[y]} :: 0 <= y < |pool| ==> MemoryInv(pool[y], y, s.index.held)
    ensures SharedInv(s.(pool := pool))
  {
    var s' := s.(pool := pool);
    forall b | 0 <= b < |s.gone|
      ensures BlockInv(s', b)
    {
      assert BlockInv(s, b);
    }
    forall i | s.head <= i < s.tail
      ensures Stored(s', i)
    {
      assert Stored(s, i);
    }
  }

  lemma PoolStepConsumer(s: Shared, pool: seq<Memory>, t: nat, c: Consumer)
    requires SharedInv(s) && PoolKeeps(s.pool, pool) && ConsumerInv(s, t, c)
    ensures ConsumerInv(s.(pool := pool), t, c)
  {
    var s' := s.(pool := pool);
    EvolvesNot(s.index);
    forall i | Holds(c, i)
      ensures Claimed(s', i) && (!c.Emptying? ==> Stored(s', i) && i !in s'.out) && BlockOf(i) < |s.index.held|
    {
      assert c.Emptying? ==> Places(s, BlockOf(i), c.e, c.x);
    }
    ConsumerStays(s, s', t, c);
  }

  lemma RequestedKeeps(s: Shared, x: nat, content: Memory)
    requires SharedInv(s) && Available(s.pool, x, content)
    ensures var s' := Requested(s, x, content);
      PoolKeeps(s.pool, s'.pool) && SharedInv(s') && IsSpare(s', x) && s' == s.(pool := s'.pool)
  {
    var s' := Requested(s, x, content);
    forall y | 0 <= y < |s'.pool|
      ensures MemoryInv(s'.pool[y], y, s.index.held)
    {
      assert y < |s.pool| ==> MemoryInv(s.pool[y], y, s.index.held);
    }
    assert x < |s.pool| ==> MemoryInv(s.pool[x], x, s.index.held);
    PoolStep(s, s'.pool);
  }

  lemma ResetKeeps(s: Shared, x: nat)
    requires SharedInv(s) && IsSpare(s, x)
    ensures var s' := Reset(s, x);
      PoolKeeps(s.pool, s'.pool) && SharedInv(s') && IsSpare(s', x) && s'.pool[x].emptied == 0 && s' == s.(pool := s'.pool)
  {
    var s' := Reset(s, x);
    forall y | 0 <= y < |s'.pool|
      ensures MemoryInv(s'.pool[y], y, s.index.held)
    {
      assert MemoryInv(s.pool[y], y, s.index.held);
    }
    PoolStep(s, s'.pool);
  }

  lemma FreedKeeps(s: Shared, x: nat, t: nat)
    requires SharedInv(s) && x < |s.pool| && s.pool[x].use == Parting(t)
    ensures SharedInv(Freed(s, x))
  {
    var s' := Freed(s, x);
    forall y | 0 <= y < |s'.pool|
      ensures MemoryInv(s'.pool[y], y, s.index.held)
    {
      assert MemoryInv(s.pool[y], y, s.index.held);
    }
    forall b | 0 <= b < |s.gone|
      ensures BlockInv(s', b)
    {
      assert BlockInv(s, b);
    }
    forall i | s.head <= i < s.tail
      ensures Stored(s', i)
    {
      assert Stored(s, i);
    }
  }

  lemma FreedConsumer(s: Shared, x: nat, t: nat, u: nat, c: Consumer)
    requires SharedInv(s) && x < |s.pool| && s.pool[x].use == Parting(t) && u != t && ConsumerInv(s, u, c)
    ensures ConsumerInv(Freed(s, x), u, c)
  {
    var s' := Freed(s, x);
    EvolvesNot(s.index);
    forall i | Holds(c, i)
      ensures Claimed(s', i) && (!c.Emptying? ==> Stored(s', i) && i !in s'.out) && BlockOf(i) < |s.index.held|
    {
      assert c.Emptying? ==> Places(s, BlockOf(i), c.e, c.x);
    }
    ConsumerStays(s, s', u, c);
  }

  // ---------------------------------------------------------------- steps on blocks and elements

  lemma BegunKeeps(s: Shared, e: nat, x: nat)
    requires SharedInv(s) && s.index.phase == Reserved && e == s.index.rings.EntryOf(|s.index.held|)
    requires IsSpare(s, x) && s.pool[x].emptied == 0
    ensures e < |s.index.entries| && Evolves(s.index, s.index.Hold(e, x))
    ensures SharedInv(Begun(s, e, x))
  {
    var k, m := s.index, |s.index.held|;
    k.HoldKeepsInv(e, x);
    SameRingsEvolve(k, k.Hold(e, x));
    var s' := Begun(s, e, x);
    forall y | 0 <= y < |s'.pool|
      ensures MemoryInv(s'.pool[y], y, s'.index.held)
    {
      assert MemoryInv(s.pool[y], y, k.held);
    }
    forall b | 0 <= b < |s'.gone|
      ensures BlockInv(s', b)
    {
      assert b < m ==> BlockInv(s, b);
    }
    forall i | s.head <= i < s.tail
      ensures Stored(s', i)
    {
      assert Stored(s, i);
    }
  }

  lemma BegunConsumer(s: Shared, e: nat, x: nat, t: nat, c: Consumer)
    requires SharedInv(s) && e < |s.index.entries| && Evolves(s.index, s.index.Hold(e, x))
    requires IsSpare(s, x) && ConsumerInv(s, t, c)
    ensures ConsumerInv(Begun(s, e, x), t, c)
  {
    var s' := Begun(s, e, x);
    forall i | Holds(c, i)
      ensures Claimed(s', i) && (!c.Emptying? ==> Stored(s', i) && i !in s'.out) && BlockOf(i) < |s.index.held|
    {
      assert c.Emptying? ==> Places(s, BlockOf(i), c.e, c.x);
    }
    ConsumerStays(s, s', t, c);
  }

  /** Two indices of one block differ in their offsets. */
  lemma SameBlockOtherOffset(i: nat, j: nat)
    requires i != j && BlockOf(i) == BlockOf(j)
    ensures OffsetOf(i) != OffsetOf(j)
  {
  }

  /** An element in place stays there when a cell of another index is written. */
  lemma OtherCell(s: Shared, s': Shared, i: nat, j: nat, x: nat, cell: Cell)
    requires SharedInv(s) && Stored(s, i) && i != j
    requires BlockOf(j) < |s.index.held| && s.index.held[BlockOf(j)] == Here(x)
    requires x < |s.pool| && |s.pool[x].cells| == BLOCK
    requires s'.pool == s.pool[x := s.pool[x].(cells := s.pool[x].cells[OffsetOf(j) := cell])]
    requires s'.index == s.index && s'.log == s.log
    ensures Stored(s', i)
  {
    assert BlockInv(s, BlockOf(i)) && BlockInv(s, BlockOf(j));
    if BlockOf(i) == BlockOf(j) { SameBlockOtherOffset(i, j); }
  }

  /** A change of one cell keeps what is known of the pool and of the blocks. */
  lemma CellStep(s: Shared, s': Shared, j: nat, x: nat, cell: Cell)
    requires SharedInv(s)
    requires x < |s.pool| && |s.pool[x].cells| == BLOCK
    requires s'.pool == s.pool[x := s.pool[x].(cells := s.pool[x].cells[OffsetOf(j) := cell])]
    requires s'.index == s.index && s'.gone == s.gone && s'.head == s.head
    ensures forall y {:trigger s'.pool[y]} :: 0 <= y < |s'.pool| ==> MemoryInv(s'.pool[y], y, s.index.held)
    ensures forall b {:trigger BlockInv(s', b)} :: 0 <= b < |s.gone| ==> BlockInv(s', b)
  {
    forall y | 0 <= y < |s'.pool|
      ensures MemoryInv(s'.pool[y], y, s.index.held)
    {
      assert MemoryInv(s.pool[y], y, s.index.held);
    }
    forall b | 0 <= b < |s.gone|
      ensures BlockInv(s', b)
    {
      assert BlockInv(s, b);
    }
  }

  lemma TailBlockOfTail(s: Shared)
    requires SharedInv(s) && TailBlockInv(s) && s.tail < BLOCK * |s.index.held| <= s.tail + BLOCK
    ensures BlockOf(s.tail) == |s.index.held| - 1 && s.index.held[BlockOf(s.tail)] == Here(s.tailBlock)
  {
  }

  lemma WrittenKeeps(s: Shared, v: nat)
    requires SharedInv(s) && TailBlockInv(s) && s.tail < BLOCK * |s.index.held| <= s.tail + BLOCK
    ensures s.tailBlock < |s.pool| && |s.pool[s.tailBlock].cells| == BLOCK
    ensures SharedInv(Written(s, v))
  {
    var s' := Written(s, v);
    TailBlockOfTail(s);
    CellStep(s, s', s.tail, s.tailBlock, Full(v));
    forall i | s.head <= i < s.tail
      ensures Stored(s', i)
    {
      assert Stored(s, i);
      OtherCell(s, s', i, s.tail, s.tailBlock, Full(v));
    }
  }

  lemma WrittenConsumer(s: Shared, v: nat, t: nat, c: Consumer)
    requires SharedInv(s) && TailBlockInv(s) && s.tail < BLOCK * |s.index.held| <= s.tail + BLOCK
    requires ConsumerInv(s, t, c)
    ensures s.tailBlock < |s.pool| && |s.pool[s.tailBlock].cells| == BLOCK
    ensures ConsumerInv(Written(s, v), t, c)
  {
    var s' := Written(s, v);
    TailBlockOfTail(s);
    EvolvesNot(s.index);
    forall i | Holds(c, i)
      ensures Claimed(s', i) && (!c.Emptying? ==> Stored(s', i) && i !in s'.out) && BlockOf(i) < |s.index.held|
    {
      assert c.Emptying? ==> Places(s, BlockOf(i), c.e, c.x);
      if !c.Emptying? {
        OtherCell(s, s', i, s.tail, s.tailBlock, Full(v));
      }
    }
    ConsumerStays(s, s', t, c);
  }

  lemma PublishedKeeps(s: Shared, v: nat)
    requires SharedInv(s) && TailBlockInv(s) && s.tail < BLOCK * |s.index.held| <= s.tail + BLOCK
    requires s.tailBlock < |s.pool| && |s.pool[s.tailBlock].cells| == BLOCK
    requires s.pool[s.tailBlock].cells[OffsetOf(s.tail)] == Full(v)
    ensures SharedInv(Published(s, v)) && TailBlockInv(Published(s, v))
  {
    var s' := Published(s, v);
    TailBlockOfTail(s);
    forall b | 0 <= b < |s.gone|
      ensures BlockInv(s', b)
    {
      assert BlockInv(s, b);
    }
    forall i | s.head <= i < s'.tail
      ensures Stored(s', i)
    {
      assert i < s.tail ==> Stored(s, i);
    }
  }

  lemma PublishedConsumer(s: Shared, v: nat, t: nat, c: Consumer)
    requires SharedInv(s) && ConsumerInv(s, t, c)
    ensures ConsumerInv(Published(s, v), t, c)
  {
    var s' := Published(s, v);
    EvolvesNot(s.index);
    forall i | Holds(c, i)
      ensures Claimed(s', i) && (!c.Emptying? ==> Stored(s', i) && i !in s'.out) && BlockOf(i) < |s.index.held|
    {
      assert c.Emptying? ==> Places(s, BlockOf(i), c.e, c.x);
    }
    ConsumerStays(s, s', t, c);
  }

  // ---------------------------------------------------------------- steps of consumers

  lemma HeldIsClaimed(s: Shared, t: nat, c: Consumer, i: nat)
    requires ConsumerInv(s, t, c) && Holds(c, i)
    ensures Claimed(s, i) && BlockOf(i) < |s.index.held| && s.index.held[BlockOf(i)].Here?
  {
  }

  lemma ClaimKeeps(s: Shared)
    requires SharedInv(s) && s.head < s.tail
    ensures SharedInv(s.(head := s.head + 1)) && Pending(s.(head := s.head + 1), s.head)
  {
    var s' := s.(head := s.head + 1);
    forall b | 0 <= b < |s.gone|
      ensures BlockInv(s', b)
    {
      assert BlockInv(s, b);
    }
    forall i | s.head <= i < s.tail
      ensures Stored(s', i)
    {
      assert Stored(s, i);
    }
    assert Stored(s, s.head) && BlockInv(s, BlockOf(s.head));
  }

  lemma ClaimConsumer(s: Shared, t: nat, c: Consumer)
    requires SharedInv(s) && ConsumerInv(s, t, c)
    ensures ConsumerInv(s.(head := s.head + 1), t, c)
  {
    var s' := s.(head := s.head + 1);
    EvolvesNot(s.index);
    forall i | Holds(c, i)
      ensures Claimed(s', i) && (!c.Emptying? ==> Stored(s', i) && i !in s'.out) && BlockOf(i) < |s.index.held|
    {
      HeldIsClaimed(s, t, c, i);
    }
    ConsumerStays(s, s', t, c);
  }

  lemma MovedKeeps(s: Shared, i: nat, e: nat, x: nat)
    requires SharedInv(s) && Pending(s, i) && Places(s, BlockOf(i), e, x)
    ensures x < |s.pool| && |s.pool[x].cells| == BLOCK && s.pool[x].cells[OffsetOf(i)] == Full(s.log[i])
    ensures SharedInv(Moved(s, i, x)) && Claimed(Moved(s, i, x), i) && Places(Moved(s, i, x), BlockOf(i), e, x)
  {
    var s' := Moved(s, i, x);
    CellStep(s, s', i, x, Empty);
    forall j | s.head <= j < s.tail
      ensures Stored(s', j)
    {
      assert Stored(s, j);
      OtherCell(s, s', j, i, x, Empty);
    }
  }

  lemma MovedConsumer(s: Shared, i: nat, e: nat, x: nat, t: nat, c: Consumer)
    requires SharedInv(s) && Pending(s, i) && Places(s, BlockOf(i), e, x) && ConsumerInv(s, t, c) && !Holds(c, i)
    ensures x < |s.pool| && |s.pool[x].cells| == BLOCK && s.pool[x].cells[OffsetOf(i)].Full?
    ensures ConsumerInv(Moved(s, i, x), t, c)
  {
    var s' := Moved(s, i, x);
    EvolvesNot(s.index);
    forall j | Holds(c, j)
      ensures Claimed(s', j) && (!c.Emptying? ==> Stored(s', j) && j !in s'.out) && BlockOf(j) < |s.index.held|
    {
      HeldIsClaimed(s, t, c, j);
      if !c.Emptying? { OtherCell(s, s', j, i, x, Empty); }
    }
    ConsumerStays(s, s', t, c);
  }

  lemma EmptiedKeeps(s: Shared, i: nat, e: nat, x: nat)
    requires SharedInv(s) && Claimed(s, i) && Places(s, BlockOf(i), e, x)
    ensures x < |s.pool| && s.pool[x].emptied == |s.gone[BlockOf(i)]| < BLOCK
    ensures SharedInv(Emptied(s, i, x)) && Places(Emptied(s, i, x), BlockOf(i), e, x)
    ensures |Emptied(s, i, x).gone[BlockOf(i)]| == s.pool[x].emptied + 1
  {
    var b := BlockOf(i);
    assert BlockInv(s, b);
    var s' := Emptied(s, i, x);
    NotFull(s.gone[b], OffsetOf(i));
    forall y | 0 <= y < |s'.pool|
      ensures MemoryInv(s'.pool[y], y, s.index.held)
    {
      assert MemoryInv(s.pool[y], y, s.index.held);
    }
    forall c | 0 <= c < |s.gone|
      ensures BlockInv(s', c)
    {
      assert BlockInv(s, c);
    }
    forall j | s.head <= j < s.tail
      ensures Stored(s', j)
    {
      assert Stored(s, j);
    }
  }

  lemma EmptiedConsumer(s: Shared, i: nat, e: nat, x: nat, t: nat, c: Consumer)
    requires SharedInv(s) && Claimed(s, i) && Places(s, BlockOf(i), e, x) && ConsumerInv(s, t, c) && !Holds(c, i)
    ensures x < |s.pool| && ConsumerInv(Emptied(s, i, x), t, c)
    ensures c.Nulling? ==> c.b != BlockOf(i)
  {
    var b := BlockOf(i);
    assert BlockInv(s, b);
    var s' := Emptied(s, i, x);
    NotFull(s.gone[b], OffsetOf(i));
    EvolvesNot(s.index);
    forall j | Holds(c, j)
      ensures Claimed(s', j) && (!c.Emptying? ==> Stored(s', j) && j !in s'.out) && BlockOf(j) < |s.index.held|
    {
      HeldIsClaimed(s, t, c, j);
      if BlockOf(j) == b { SameBlockOtherOffset(i, j); }
    }
    ConsumerStays(s, s', t, c);
  }

  /** A block whose elements are all counted holds no element that is published and not counted. */
  lemma AllCounted(s: Shared, b: nat, i: nat)
    requires SharedInv(s) && b < |s.gone| && |s.gone[b]| == BLOCK
    requires s.head <= i || Claimed(s, i)
    ensures BlockOf(i) != b
  {
    assert BlockInv(s, b);
    if BlockOf(i) == b {
      NotFull(s.gone[b], OffsetOf(i));
    }
  }

  lemma ClearedKeeps(s: Shared, t: nat, b: nat, e: nat, x: nat)
    requires SharedInv(s) && Places(s, b, e, x) && b < |s.gone| && |s.gone[b]| == BLOCK
    ensures e < |s.index.entries| && x < |s.pool| && Evolves(s.index, s.index.Clear(e, b))
    ensures SharedInv(Cleared(s, t, b, e, x))
  {
    s.index.ClearKeepsInv(e, b);
    SameRingsEvolve(s.index, s.index.Clear(e, b));
    assert BlockInv(s, b);
    var s' := Cleared(s, t, b, e, x);
    forall y | 0 <= y < |s'.pool|
      ensures MemoryInv(s'.pool[y], y, s'.index.held)
    {
      assert MemoryInv(s.pool[y], y, s.index.held) && MemoryInv(s.pool[x], x, s.index.held);
    }
    forall c | 0 <= c < |s.gone|
      ensures BlockInv(s', c)
    {
      assert BlockInv(s, c);
    }
    forall i | s.head <= i < s.tail
      ensures Stored(s', i)
    {
      assert Stored(s, i);
      AllCounted(s, b, i);
    }
  }

  lemma ClearedConsumer(s: Shared, t: nat, b: nat, e: nat, x: nat, u: nat, c: Consumer)
    requires SharedInv(s) && Places(s, b, e, x) && b < |s.gone| && |s.gone[b]| == BLOCK
    requires e < |s.index.entries| && x < |s.pool| && Evolves(s.index, s.index.Clear(e, b))
    requires ConsumerInv(s, u, c) && !(c.Nulling? && c.b == b)
    ensures ConsumerInv(Cleared(s, t, b, e, x), u, c)
  {
    var s' := Cleared(s, t, b, e, x);
    assert BlockInv(s, b);
    forall i | Holds(c, i)
      ensures BlockOf(i) < |s'.index.held| && s'.index.held[BlockOf(i)] == s.index.held[BlockOf(i)]
      ensures Claimed(s', i) && (!c.Emptying? ==> Stored(s', i) && i !in s'.out)
    {
      HeldIsClaimed(s, u, c, i);
      AllCounted(s, b, i);
    }
    ConsumerStays(s, s', u, c);
  }

  // ---------------------------------------------------------------- every step keeps the invariant

  /** Only the producer moves: the consumers stay apart, and nothing that was claimed goes astray. */
  lemma ProducerMoves(s: State, s': State)
    requires ConsumersInv(s.shared, s.consumers) && s'.consumers == s.consumers
    requires s'.shared.head == s.shared.head && s'.shared.out == s.shared.out
    requires forall t {:trigger s.consumers[t]} :: 0 <= t < |s.consumers| ==>
               ConsumerInv(s'.shared, t, s.consumers[t])
    ensures ConsumersInv(s'.shared, s'.consumers)
  {
    forall i | 0 <= i < s'.shared.head
      ensures Accounted(s'.shared, s'.consumers, i)
    {
      assert Accounted(s.shared, s.consumers, i);
    }
  }

  lemma EnqueueKeepsInv(s: State, v: nat)
    requires Inv(s) && s.producer.Waiting?
    ensures Inv(Next(s, Enqueue(v)))
  {
  }

  /** The index after a step of the producer that changes nothing but the index. */
  lemma ProducerIndex(s: State, s': State)
    requires Inv(s) && s'.consumers == s.consumers && s'.shared == s.shared.(index := s'.shared.index)
    requires s'.shared.index.Inv() && Evolves(s.shared.index, s'.shared.index)
    requires s'.shared.index.held == s.shared.index.held && Capacities(s'.shared.index.rings)
    requires ProducerInv(s'.shared, s'.producer) && !s.producer.Resetting? && !s.producer.Holding?
    ensures Inv(s')
  {
    IndexStep(s.shared, s'.shared.index);
    forall x | 0 <= x < |s.shared.pool|
      ensures Carried(s'.shared.pool[x], x, s'.producer, s'.consumers)
    {
      assert Carried(s.shared.pool[x], x, s.producer, s.consumers);
    }
    forall t | 0 <= t < |s.consumers|
      ensures ConsumerInv(s'.shared, t, s.consumers[t])
    {
      IndexStepConsumer(s.shared, s'.shared.index, t, s.consumers[t]);
    }
    ProducerMoves(s, s');
  }

  lemma ProducerPool(s: State, s': State)
    requires Inv(s) && s'.consumers == s.consumers && s'.shared == s.shared.(pool := s'.shared.pool)
    requires PoolKeeps(s.shared.pool, s'.shared.pool) && SharedInv(s'.shared)
    requires ProducerInv(s'.shared, s'.producer) && NoneLeaked(s')
    ensures Inv(s')
  {
    forall t | 0 <= t < |s.consumers|
      ensures ConsumerInv(s'.shared, t, s.consumers[t])
    {
      PoolStepConsumer(s.shared, s'.shared.pool, t, s.consumers[t]);
    }
    ProducerMoves(s, s');
  }

  lemma KeyingKeepsInv(s: State, ok: bool, x: nat, content: Memory)
    requires Inv(s) && (s.producer.Keying? || s.producer.Valuing?)
    ensures !ProducerFault(s.shared, s.producer) && Inv(ProducerNext(s, ok, x, content))
  {
    ProducerSafe(s.shared, s.producer);
    var k := s.shared.index;
    if k.Key(k.NextEntry()) == INVALID || k.entries[k.NextEntry()].value == Null {
      k.ReusableIsVacant();
    }
    k.NextIsOwn();
  }

  lemma GrowKeepsCapacities(k: Index)
    requires k.Shaped() && Capacities(k.rings) && MayDouble(k.rings)
    ensures Capacities(k.Grow().rings)
  {
    var c := k.rings.Cap(k.Last());
    assert IsCapacity(|k.rings.index[k.Last()]|);
    var e: nat :| e <= 59 && c == Pow2(e);
    WordOfBlocks();
    assert e < 59 && 2 * c == Pow2(e + 1);
    assert IsCapacity(2 * c);
  }

  lemma GrowingKeepsInv(s: State, x: nat, content: Memory)
    requires Inv(s) && s.producer.Growing? && MayDouble(s.shared.index.rings)
    ensures !ProducerFault(s.shared, s.producer) && Inv(ProducerNext(s, true, x, content))
  {
    var k := s.shared.index;
    k.GrowKeepsInv();
    GrowEvolves(k);
    GrowKeepsCapacities(k);
    ProducerIndex(s, ProducerNext(s, true, x, content));
  }

  lemma FailingKeepsInv(s: State, x: nat, content: Memory)
    requires Inv(s) && (s.producer.Growing? || s.producer.Requesting?)
    ensures !ProducerFault(s.shared, s.producer) && Inv(ProducerNext(s, false, x, content))
  {
    ProducerSafe(s.shared, s.producer);
  }

  lemma TakingKeepsInv(s: State, ok: bool, x: nat, content: Memory)
    requires Inv(s) && s.producer.Taking?
    ensures !ProducerFault(s.shared, s.producer) && Inv(ProducerNext(s, ok, x, content))
  {
    var k := s.shared.index;
    k.NextIsOwn();
    k.SetKeyKeepsInv();
    SameRingsEvolve(k, k.SetKey(k.NextEntry()));
    ProducerIndex(s, ProducerNext(s, ok, x, content));
  }

  lemma ListingKeepsInv(s: State, ok: bool, x: nat, content: Memory)
    requires Inv(s) && s.producer.Listing?
    ensures !ProducerFault(s.shared, s.producer) && Inv(ProducerNext(s, ok, x, content))
  {
    ProducerSafe(s.shared, s.producer);
    var k := s.shared.index;
    k.MoveTailKeepsInv();
    SameRingsEvolve(k, k.MoveTail());
    ProducerIndex(s, ProducerNext(s, ok, x, content));
  }

  lemma RewindingKeepsInv(s: State, ok: bool, x: nat, content: Memory)
    requires Inv(s) && s.producer.Rewinding?
    ensures !ProducerFault(s.shared, s.producer) && Inv(ProducerNext(s, ok, x, content))
  {
    var k := s.shared.index;
    k.RewindKeepsInv();
    SameRingsEvolve(k, k.Rewind());
    ProducerIndex(s, ProducerNext(s, ok, x, content));
  }

  lemma DroppingKeepsInv(s: State, ok: bool, x: nat, content: Memory)
    requires Inv(s) && s.producer.Dropping?
    ensures !ProducerFault(s.shared, s.producer) && Inv(ProducerNext(s, ok, x, content))
  {
    var k, e := s.shared.index, s.producer.e;
    k.TakeBackKeepsInv(e);
    SameRingsEvolve(k, k.TakeBack(e));
    ProducerIndex(s, ProducerNext(s, ok, x, content));
  }

  lemma RequestingKeepsInv(s: State, x: nat, content: Memory)
    requires Inv(s) && s.producer.Requesting? && Available(s.shared.pool, x, content)
    ensures !ProducerFault(s.shared, s.producer) && Inv(ProducerNext(s, true, x, content))
  {
    ProducerSafe(s.shared, s.producer);
    RequestedKeeps(s.shared, x, content);
    ProducerPool(s, ProducerNext(s, true, x, content));
  }

  lemma ResettingKeepsInv(s: State, ok: bool, x: nat, content: Memory)
    requires Inv(s) && s.producer.Resetting?
    ensures !ProducerFault(s.shared, s.producer) && Inv(ProducerNext(s, ok, x, content))
  {
    ResetKeeps(s.shared, s.producer.x);
    ProducerPool(s, ProducerNext(s, ok, x, content));
  }

  lemma HoldingKeepsInv(s: State, ok: bool, x: nat, content: Memory)
    requires Inv(s) && s.producer.Holding?
    ensures !ProducerFault(s.shared, s.producer) && Inv(ProducerNext(s, ok, x, content))
  {
    ProducerSafe(s.shared, s.producer);
    var e, y := s.producer.e, s.producer.x;
    BegunKeeps(s.shared, e, y);
    var s' := ProducerNext(s, ok, x, content);
    forall t | 0 <= t < |s.consumers|
      ensures ConsumerInv(s'.shared, t, s.consumers[t])
    {
      BegunConsumer(s.shared, e, y, t, s.consumers[t]);
    }
    ProducerMoves(s, s');
    assert MemoryInv(s.shared.pool[y], y, s.shared.index.held);
  }

  lemma WritingKeepsInv(s: State, ok: bool, x: nat, content: Memory)
    requires Inv(s) && s.producer.Writing?
    ensures !ProducerFault(s.shared, s.producer) && Inv(ProducerNext(s, ok, x, content))
  {
    var v := s.producer.v;
    WrittenKeeps(s.shared, v);
    var s' := ProducerNext(s, ok, x, content);
    forall t | 0 <= t < |s.consumers|
      ensures ConsumerInv(s'.shared, t, s.consumers[t])
    {
      WrittenConsumer(s.shared, v, t, s.consumers[t]);
    }
    ProducerMoves(s, s');
  }

  lemma PublishingKeepsInv(s: State, ok: bool, x: nat, content: Memory)
    requires Inv(s) && s.producer.Publishing?
    ensures !ProducerFault(s.shared, s.producer) && Inv(ProducerNext(s, ok, x, content))
  {
    var v := s.producer.v;
    PublishedKeeps(s.shared, v);
    var s' := ProducerNext(s, ok, x, content);
    forall t | 0 <= t < |s.consumers|
      ensures ConsumerInv(s'.shared, t, s.consumers[t])
    {
      PublishedConsumer(s.shared, v, t, s.consumers[t]);
    }
    ProducerMoves(s, s');
  }

  lemma ProduceKeepsInv(s: State, ok: bool, x: nat, content: Memory)
    requires Inv(s) && Enabled(s, Produce(ok, x, content))
    ensures !ProducerFault(s.shared, s.producer) && Inv(ProducerNext(s, ok, x, content))
  {
    match s.producer
    case Keying(_, _) => KeyingKeepsInv(s, ok, x, content);
    case Valuing(_) => KeyingKeepsInv(s, ok, x, content);
    case Growing(_) => if ok { GrowingKeepsInv(s, x, content); } else { FailingKeepsInv(s, x, content); }
    case Taking(_, _) => TakingKeepsInv(s, ok, x, content);
    case Listing(_, _) => ListingKeepsInv(s, ok, x, content);
    case Requesting(_, _) => if ok { RequestingKeepsInv(s, x, content); } else { FailingKeepsInv(s, x, content); }
    case Rewinding(_) => RewindingKeepsInv(s, ok, x, content);
    case Dropping(_) => DroppingKeepsInv(s, ok, x, content);
    case Resetting(_, _, _) => ResettingKeepsInv(s, ok, x, content);
    case Holding(_, _, _) => HoldingKeepsInv(s, ok, x, content);
    case Writing(_) => WritingKeepsInv(s, ok, x, content);
    case Publishing(_) => PublishingKeepsInv(s, ok, x, content);
  }

  /** One consumer moves on: it keeps what it holds or has brought it out, and the others are left alone. */
  lemma ConsumerMoves(s: State, s': State, t: nat, c: Consumer)
    requires ConsumersInv(s.shared, s.consumers) && t < |s.consumers|
    requires s'.consumers == s.consumers[t := c] && s'.shared.head == s.shared.head
    requires s.shared.out.Keys <= s'.shared.out.Keys
    requires ConsumerInv(s'.shared, t, c)
    requires forall u {:trigger s.consumers[u]} :: 0 <= u < |s.consumers| && u != t ==>
               ConsumerInv(s'.shared, u, s.consumers[u]) && !(c.Nulling? && s.consumers[u].Nulling? && s.consumers[u].b == c.b)
    requires forall i {:trigger Holds(c, i)} :: Holds(c, i) ==> Holds(s.consumers[t], i)
    requires forall i {:trigger Holds(s.consumers[t], i)} :: Holds(s.consumers[t], i) ==> Holds(c, i) || i in s'.shared.out
    ensures ConsumersInv(s'.shared, s'.consumers)
  {
    var after := s'.consumers;
    forall u, w | 0 <= u < w < |after|
      ensures Apart(after[u], after[w])
    {
      assert Apart(s.consumers[u], s.consumers[w]);
    }
    forall i | 0 <= i < s'.shared.head
      ensures Accounted(s'.shared, after, i)
    {
      assert Accounted(s.shared, s.consumers, i);
      if i !in s'.shared.out {
        var u :| 0 <= u < |s.consumers| && Holds(s.consumers[u], i);
        assert Holds(after[u], i);
      }
    }
  }

  lemma SameUses(s: State, s': State, t: nat)
    requires NoneLeaked(s) && t < |s.consumers| && !s.consumers[t].Freeing? && s'.producer == s.producer
    requires |s'.consumers| == |s.consumers| && forall u :: 0 <= u < |s.consumers| && u != t ==> s'.consumers[u] == s.consumers[u]
    requires |s'.shared.pool| == |s.shared.pool|
    requires forall x {:trigger s'.shared.pool[x]} :: 0 <= x < |s.shared.pool| ==> s'.shared.pool[x].use == s.shared.pool[x].use
    ensures NoneLeaked(s')
  {
    forall x | 0 <= x < |s'.shared.pool|
      ensures Carried(s'.shared.pool[x], x, s'.producer, s'.consumers)
    {
      assert Carried(s.shared.pool[x], x, s.producer, s.consumers);
    }
  }

  lemma OthersDoNotHold(s: State, t: nat, u: nat, i: nat)
    requires ConsumersInv(s.shared, s.consumers) && t < |s.consumers| && u < |s.consumers| && t != u
    requires Holds(s.consumers[t], i)
    ensures !Holds(s.consumers[u], i)
  {
    assert if t < u then Apart(s.consumers[t], s.consumers[u]) else Apart(s.consumers[u], s.consumers[t]);
  }

  lemma ClaimKeepsInv(s: State, t: nat)
    requires Inv(s) && Enabled(s, Claim(t))
    ensures Inv(Next(s, Claim(t)))
  {
    var s' := Next(s, Claim(t));
    ClaimKeeps(s.shared);
    SameUses(s, s', t);
    ClaimConsumers(s, t);
  }

  lemma ClaimConsumers(s: State, t: nat)
    requires Inv(s) && Enabled(s, Claim(t))
    ensures ConsumersInv(Next(s, Claim(t)).shared, Next(s, Claim(t)).consumers)
  {
    var s' := Next(s, Claim(t));
    ClaimKeeps(s.shared);
    forall u | 0 <= u < |s'.consumers|
      ensures ConsumerInv(s'.shared, u, s'.consumers[u])
    {
      if u != t { ClaimConsumer(s.shared, u, s.consumers[u]); }
    }
    forall u, w | 0 <= u < w < |s'.consumers|
      ensures Apart(s'.consumers[u], s'.consumers[w])
    {
      assert Apart(s.consumers[u], s.consumers[w]);
      ClaimedBefore(s, u);
      ClaimedBefore(s, w);
    }
    forall j | 0 <= j < s'.shared.head
      ensures Accounted(s'.shared, s'.consumers, j)
    {
      ClaimAccounts(s.shared, s.consumers, t, j);
    }
  }

  lemma ClaimAccounts(s: Shared, consumers: seq<Consumer>, t: nat, j: nat)
    requires t < |consumers| && consumers[t].Idle?
    requires j < s.head ==> Accounted(s, consumers, j)
    requires j <= s.head
    ensures Accounted(s.(head := s.head + 1), consumers[t := Finding(s.head)], j)
  {
    var after := consumers[t := Finding(s.head)];
    if j == s.head {
      assert Holds(after[t], j);
    } else if j !in s.out {
      var u :| 0 <= u < |consumers| && Holds(consumers[u], j);
      assert Holds(after[u], j);
    }
  }

  lemma ClaimedBefore(s: State, u: nat)
    requires Inv(s) && u < |s.consumers|
    ensures !Holds(s.consumers[u], s.shared.head)
  {
    if Holds(s.consumers[u], s.shared.head) {
      HeldIsClaimed(s.shared, u, s.consumers[u], s.shared.head);
    }
  }

  /** The steps that find the entry: each leads on to what the next one relies on. */
  lemma FindingAdvances(s: Shared, t: nat, c: Consumer)
    requires SharedInv(s) && ConsumerInv(s, t, c)
    requires c.Finding? || c.Tailing? || c.Counting? || c.Looking?
    ensures !ConsumerFault(s, c) && ConsumerInv(s, t, ConsumerThen(s, c))
  {
    ConsumerSafe(s, t, c);
    var k := s.index;
    match c
    case Finding(i) =>
    case Tailing(i, h) => k.TailHasKey(h);
    case Counting(i, h, p) => k.LookupPosition(h, p, BlockOf(i));
    case Looking(i, h, p) => k.LookupEntry(h, BlockOf(i));
  }

  lemma FindingKeepsInv(s: State, t: nat)
    requires Inv(s) && t < |s.consumers|
    requires var c := s.consumers[t]; c.Finding? || c.Tailing? || c.Counting? || c.Looking?
    ensures !ConsumerFault(s.shared, s.consumers[t]) && Inv(Next(s, Consume(t)))
  {
    var c := s.consumers[t];
    FindingAdvances(s.shared, t, c);
    ConsumerMoves(s, Next(s, Consume(t)), t, ConsumerThen(s.shared, c));
  }

  lemma MovingShared(s: State, t: nat)
    requires SharedInv(s.shared) && ProducerInv(s.shared, s.producer) && t < |s.consumers| && s.consumers[t].Moving?
    requires ConsumerInv(s.shared, t, s.consumers[t]) && !ConsumerFault(s.shared, s.consumers[t])
    ensures var s' := Next(s, Consume(t)); SharedInv(s'.shared) && ProducerInv(s'.shared, s'.producer)
  {
    var c := s.consumers[t];
    MovedKeeps(s.shared, c.i, c.e, c.x);
    MovedKeepsProducer(s.shared, c.i, c.e, c.x, s.producer);
  }

  lemma MovingStep(s: State, t: nat)
    requires Inv(s) && t < |s.consumers| && s.consumers[t].Moving?
    requires !ConsumerFault(s.shared, s.consumers[t])
    ensures Inv(Next(s, Consume(t)))
  {
    MovingShared(s, t);
    MovingConsumers(s, t);
    SameUses(s, Next(s, Consume(t)), t);
  }

  lemma MovingKeepsInv(s: State, t: nat)
    requires Inv(s) && t < |s.consumers| && s.consumers[t].Moving?
    ensures !ConsumerFault(s.shared, s.consumers[t]) && Inv(Next(s, Consume(t)))
  {
    ConsumerSafe(s.shared, t, s.consumers[t]);
    MovingStep(s, t);
  }

  lemma MovingConsumers(s: State, t: nat)
    requires Inv(s) && t < |s.consumers| && s.consumers[t].Moving?
    requires !ConsumerFault(s.shared, s.consumers[t])
    ensures ConsumersInv(Next(s, Consume(t)).shared, Next(s, Consume(t)).consumers)
  {
    var c, s' := s.consumers[t], Next(s, Consume(t));
    MovedKeeps(s.shared, c.i, c.e, c.x);
    forall u | 0 <= u < |s.consumers| && u != t
      ensures ConsumerInv(s'.shared, u, s.consumers[u])
    {
      OthersDoNotHold(s, t, u, c.i);
      MovedConsumer(s.shared, c.i, c.e, c.x, u, s.consumers[u]);
    }
    ConsumerMoves(s, s', t, Emptying(c.i, c.e, c.x));
  }

  lemma MovedKeepsProducer(s: Shared, i: nat, e: nat, x: nat, p: Producer)
    requires SharedInv(s) && Pending(s, i) && Places(s, BlockOf(i), e, x) && ProducerInv(s, p)
    requires x < |s.pool| && |s.pool[x].cells| == BLOCK && s.pool[x].cells[OffsetOf(i)].Full?
    ensures ProducerInv(Moved(s, i, x), p)
  {
    var s' := Moved(s, i, x);
    assert BlockInv(s, BlockOf(i));
    if p.Publishing? {
      TailBlockOfTail(s);
      assert BlockInv(s, BlockOf(s.tail));
      if BlockOf(i) == BlockOf(s.tail) { SameBlockOtherOffset(i, s.tail); }
    }
  }

  lemma EmptyingShared(s: State, t: nat)
    requires SharedInv(s.shared) && ProducerInv(s.shared, s.producer) && t < |s.consumers| && s.consumers[t].Emptying?
    requires ConsumerInv(s.shared, t, s.consumers[t]) && !ConsumerFault(s.shared, s.consumers[t])
    ensures var s' := Next(s, Consume(t)); SharedInv(s'.shared) && ProducerInv(s'.shared, s'.producer)
  {
    var c := s.consumers[t];
    EmptiedKeeps(s.shared, c.i, c.e, c.x);
    EmptiedKeepsProducer(s.shared, c.i, c.e, c.x, s.producer);
  }

  lemma EmptyingStep(s: State, t: nat)
    requires Inv(s) && t < |s.consumers| && s.consumers[t].Emptying?
    requires !ConsumerFault(s.shared, s.consumers[t])
    ensures Inv(Next(s, Consume(t)))
  {
    EmptyingShared(s, t);
    EmptyingConsumers(s, t);
    SameUses(s, Next(s, Consume(t)), t);
  }

  lemma EmptyingKeepsInv(s: State, t: nat)
    requires Inv(s) && t < |s.consumers| && s.consumers[t].Emptying?
    ensures !ConsumerFault(s.shared, s.consumers[t]) && Inv(Next(s, Consume(t)))
  {
    ConsumerSafe(s.shared, t, s.consumers[t]);
    EmptyingStep(s, t);
  }

  lemma EmptiedKeepsProducer(s: Shared, i: nat, e: nat, x: nat, p: Producer)
    requires SharedInv(s) && Places(s, BlockOf(i), e, x) && x < |s.pool| && ProducerInv(s, p)
    ensures BlockOf(i) < |s.gone| && ProducerInv(Emptied(s, i, x), p)
  {
    assert BlockInv(s, BlockOf(i));
  }

  lemma EmptyingConsumers(s: State, t: nat)
    requires Inv(s) && t < |s.consumers| && s.consumers[t].Emptying?
    requires !ConsumerFault(s.shared, s.consumers[t])
    ensures ConsumersInv(Next(s, Consume(t)).shared, Next(s, Consume(t)).consumers)
  {
    var c, s' := s.consumers[t], Next(s, Consume(t));
    EmptiedKeeps(s.shared, c.i, c.e, c.x);
    forall u | 0 <= u < |s.consumers| && u != t
      ensures ConsumerInv(s'.shared, u, s.consumers[u]) && (s.consumers[u].Nulling? ==> s.consumers[u].b != BlockOf(c.i))
    {
      OthersDoNotHold(s, t, u, c.i);
      EmptiedConsumer(s.shared, c.i, c.e, c.x, u, s.consumers[u]);
    }
    ConsumerMoves(s, s', t, ConsumerThen(s.shared, c));
  }

  lemma NullingShared(s: State, t: nat)
    requires SharedInv(s.shared) && ProducerInv(s.shared, s.producer) && t < |s.consumers| && s.consumers[t].Nulling?
    requires ConsumerInv(s.shared, t, s.consumers[t]) && !ConsumerFault(s.shared, s.consumers[t])
    ensures var s' := Next(s, Consume(t)); SharedInv(s'.shared) && ProducerInv(s'.shared, s'.producer)
  {
    var c := s.consumers[t];
    ClearedKeeps(s.shared, t, c.b, c.e, c.x);
    ClearedKeepsProducer(s.shared, t, c.b, c.e, c.x, s.producer);
  }

  lemma NullingStep(s: State, t: nat)
    requires Inv(s) && t < |s.consumers| && s.consumers[t].Nulling?
    requires !ConsumerFault(s.shared, s.consumers[t])
    ensures Inv(Next(s, Consume(t)))
  {
    NullingShared(s, t);
    NullingConsumers(s, t);
    NullingLeaksNone(s, t);
  }

  lemma NullingKeepsInv(s: State, t: nat)
    requires Inv(s) && t < |s.consumers| && s.consumers[t].Nulling?
    ensures !ConsumerFault(s.shared, s.consumers[t]) && Inv(Next(s, Consume(t)))
  {
    ConsumerSafe(s.shared, t, s.consumers[t]);
    NullingStep(s, t);
  }

  lemma NullingLeaksNone(s: State, t: nat)
    requires NoneLeaked(s) && t < |s.consumers| && s.consumers[t].Nulling?
    requires !ConsumerFault(s.shared, s.consumers[t])
    ensures NoneLeaked(Next(s, Consume(t)))
  {
    var s' := Next(s, Consume(t));
    forall x | 0 <= x < |s'.shared.pool|
      ensures Carried(s'.shared.pool[x], x, s'.producer, s'.consumers)
    {
      assert Carried(s.shared.pool[x], x, s.producer, s.consumers);
    }
  }

  lemma NullingConsumers(s: State, t: nat)
    requires Inv(s) && t < |s.consumers| && s.consumers[t].Nulling?
    requires !ConsumerFault(s.shared, s.consumers[t])
    ensures ConsumersInv(Next(s, Consume(t)).shared, Next(s, Consume(t)).consumers)
  {
    var c, s' := s.consumers[t], Next(s, Consume(t));
    ClearedKeeps(s.shared, t, c.b, c.e, c.x);
    forall u | 0 <= u < |s.consumers| && u != t
      ensures ConsumerInv(s'.shared, u, s.consumers[u])
    {
      assert if t < u then Apart(c, s.consumers[u]) else Apart(s.consumers[u], c);
      ClearedConsumer(s.shared, t, c.b, c.e, c.x, u, s.consumers[u]);
    }
    ConsumerMoves(s, s', t, Freeing(c.x));
  }

  lemma ClearedKeepsTailBlock(s: Shared, t: nat, b: nat, e: nat, x: nat)
    requires SharedInv(s) && b < |s.gone| && |s.gone[b]| == BLOCK && TailBlockInv(s)
    requires BLOCK * |s.index.held| <= s.tail + BLOCK
    requires e < |s.index.entries| && x < |s.pool| && b < |s.index.held|
    ensures TailBlockInv(Cleared(s, t, b, e, x))
  {
    if s.tail < BLOCK * |s.index.held| {
      AllCounted(s, b, s.tail);
    }
  }

  lemma ClearedKeepsProducer(s: Shared, t: nat, b: nat, e: nat, x: nat, p: Producer)
    requires SharedInv(s) && Places(s, b, e, x) && b < |s.gone| && |s.gone[b]| == BLOCK && ProducerInv(s, p)
    requires e < |s.index.entries| && x < |s.pool| && SharedInv(Cleared(s, t, b, e, x))
    ensures ProducerInv(Cleared(s, t, b, e, x), p)
  {
    assert BlockInv(s, b);
    if TailBlockInv(s) && BLOCK * |s.index.held| <= s.tail + BLOCK { ClearedKeepsTailBlock(s, t, b, e, x); }
  }

  lemma FreeingConsumers(s: State, t: nat)
    requires Inv(s) && t < |s.consumers| && s.consumers[t].Freeing?
    requires !ConsumerFault(s.shared, s.consumers[t])
    ensures ConsumersInv(Next(s, Consume(t)).shared, Next(s, Consume(t)).consumers)
  {
    var c, s' := s.consumers[t], Next(s, Consume(t));
    forall u | 0 <= u < |s.consumers| && u != t
      ensures ConsumerInv(s'.shared, u, s.consumers[u])
    {
      FreedConsumer(s.shared, c.x, t, u, s.consumers[u]);
    }
    ConsumerMoves(s, s', t, Idle);
  }

  lemma FreeingStep(s: State, t: nat)
    requires Inv(s) && t < |s.consumers| && s.consumers[t].Freeing?
    requires !ConsumerFault(s.shared, s.consumers[t])
    ensures Inv(Next(s, Consume(t)))
  {
    FreedKeeps(s.shared, s.consumers[t].x, t);
    FreeingConsumers(s, t);
  }

  lemma FreeingKeepsInv(s: State, t: nat)
    requires Inv(s) && t < |s.consumers| && s.consumers[t].Freeing?
    ensures !ConsumerFault(s.shared, s.consumers[t]) && Inv(Next(s, Consume(t)))
  {
    ConsumerSafe(s.shared, t, s.consumers[t]);
    FreeingStep(s, t);
  }

  lemma ConsumeKeepsInv(s: State, t: nat)
    requires Inv(s) && Enabled(s, Consume(t))
    ensures !ConsumerFault(s.shared, s.consumers[t]) && Inv(Next(s, Consume(t)))
  {
    match s.consumers[t]
    case Moving(_, _, _) => MovingKeepsInv(s, t);
    case Emptying(_, _, _) => EmptyingKeepsInv(s, t);
    case Nulling(_, _, _) => NullingKeepsInv(s, t);
    case Freeing(_) => FreeingKeepsInv(s, t);
    case _ => FindingKeepsInv(s, t);
  }

  lemma StepKeepsInv(s: State, a: Action)
    requires Inv(s) && Enabled(s, a)
    ensures !Fault(s, a) && Inv(Next(s, a))
  {
    NoFault(s, a);
    match a
    case Enqueue(v) => EnqueueKeepsInv(s, v);
    case Produce(ok, x, content) => ProduceKeepsInv(s, ok, x, content);
    case Claim(t) => ClaimKeepsInv(s, t);
    case Consume(t) => ConsumeKeepsInv(s, t);
  }
}

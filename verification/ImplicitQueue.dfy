/**
  The implicit producer as a queue: one thread enqueues, any number of threads dequeue, over blocks of
  elements from a shared pool and the block index.  Every access to shared memory is one step.

  Taking a block from the pool and giving it back are single steps, and a consumer claims an index only
  when one is left; WholeQueue and PooledQueue put the protocols of DequeueCounters and FreeList in their
  place.
*/
module ImplicitQueue {
  import opened Arith
  import opened BlockIndex
  import opened FiniteSets

  datatype Cell = Empty | Full(v: nat)

  /** For the proof: what a block of the pool is used for. */
  datatype Use = Unused | Spare | For(b: nat) | Parting(t: nat)

  /** `emptied` is `elementsCompletelyDequeued`, `free` whether the pool has the block. */
  datatype Memory = Memory(cells: seq<Cell>, emptied: nat, free: bool, use: Use)

  datatype Producer =
    | Waiting
    | Keying(v: nat, grown: bool)         // about to read the key of the next entry
    | Valuing(v: nat)                     // about to read its value
    | Growing(v: nat)                     // about to allocate a larger index
    | Taking(v: nat, e: nat)              // about to store the key
    | Listing(v: nat, e: nat)             // about to move the tail of the index
    | Requesting(v: nat, e: nat)          // about to get a block from the pool
    | Rewinding(e: nat)
    | Dropping(e: nat)                    // about to store nullptr in the entry
    | Resetting(v: nat, e: nat, x: nat)
    | Holding(v: nat, e: nat, x: nat)     // about to store the block in the entry
    | Writing(v: nat)
    | Publishing(v: nat)

  datatype Consumer =
    | Idle
    | Finding(i: nat)                     // about to load the current header
    | Tailing(i: nat, h: nat)             // about to load its tail
    | Counting(i: nat, h: nat, p: nat)    // about to load the key there
    | Looking(i: nat, h: nat, p: nat)     // about to load the entry
    | Moving(i: nat, e: nat, x: nat)      // about to take the element
    | Emptying(i: nat, e: nat, x: nat)    // about to count it
    | Nulling(b: nat, e: nat, x: nat)     // last of its block, about to take the block out of the index
    | Freeing(x: nat)

  /** What the threads share. `log` has every value published, `gone` for each block the offsets counted as
    * dequeued, and `out` what consumers got for which index. They record the past and influence no step. */
  datatype Shared = Shared(index: Index, pool: seq<Memory>, head: nat, tail: nat, tailBlock: nat,
                           log: seq<nat>, gone: seq<set<nat>>, out: map<nat, nat>)

  datatype State = State(shared: Shared, producer: Producer, consumers: seq<Consumer>)

  datatype Action =
    | Enqueue(v: nat)
    | Produce(ok: bool, x: nat, content: Memory)  // whether memory is there, and which block
    | Claim(t: nat)
    | Consume(t: nat)

  function BlockOf(i: nat): nat { i / BLOCK }
  function OffsetOf(i: nat): nat { i % BLOCK }

  // ---------------------------------------------------------------- steps

  predicate Enabled(s: State, a: Action) {
    match a
    case Enqueue(_) => s.producer.Waiting?
    case Produce(ok, x, content) =>
      && !s.producer.Waiting?
      && (s.producer.Requesting? && ok ==> Available(s.shared.pool, x, content))
      && (s.producer.Growing? && ok ==> MayDouble(s.shared.index.rings))
    case Claim(t) => t < |s.consumers| && s.consumers[t].Idle? && s.shared.head < s.shared.tail
    case Consume(t) => t < |s.consumers| && !s.consumers[t].Idle?
  }

  /** No address space has room for an index of 2^60 entries, so an allocation of that many does not succeed. */
  predicate MayDouble(rings: Rings) {
    rings.Shaped() ==> rings.Cap(rings.Last()) < 0x0800_0000_0000_0000
  }

  /** A block the pool has, or a new one. */
  predicate Available(pool: seq<Memory>, x: nat, content: Memory) {
    (x < |pool| && pool[x].free) || (x == |pool| && |content.cells| == BLOCK)
  }

  /** An assertion of the source that fails, or an access outside an array or to what is not there. */
  predicate Fault(s: State, a: Action) {
    match a
    case Enqueue(_) => s.shared.tail < s.shared.head
    case Produce(_, _, _) => ProducerFault(s.shared, s.producer)
    case Claim(_) => false
    case Consume(t) => t >= |s.consumers| || ConsumerFault(s.shared, s.consumers[t])
  }

  predicate ProducerFault(s: Shared, p: Producer) {
    var k := s.index;
    || !k.Shaped()
    || match p
       case Waiting => true
       case Keying(_, grown) =>
         k.NextEntry() >= |k.entries| || (grown && k.Key(k.NextEntry()) != INVALID)
       case Valuing(_) => k.NextEntry() >= |k.entries|
       case Growing(_) => false
       case Taking(_, e) => e >= |k.entries|
       case Listing(_, e) => e >= |k.entries|
       case Requesting(_, e) => e >= |k.entries|
       case Rewinding(_) => false
       case Dropping(e) => e >= |k.entries|
       case Resetting(_, _, x) => x >= |s.pool|
       case Holding(_, e, x) => e >= |k.entries| || x >= |s.pool|
       case Writing(_) => s.tailBlock >= |s.pool| || |s.pool[s.tailBlock].cells| != BLOCK
       case Publishing(_) => false
  }

  predicate ConsumerFault(s: Shared, c: Consumer) {
    var k := s.index;
    || !k.Shaped()
    || match c
       case Idle => true
       case Finding(_) => false
       case Tailing(_, h) => h >= |k.tails|
       case Counting(_, h, p) => h >= |k.tails| || p >= k.rings.Cap(h) || k.Key(k.rings.index[h][p]) == INVALID
       case Looking(i, h, p) =>
         || h >= |k.tails| || p >= k.rings.Cap(h)
         || k.Key(k.rings.index[h][p]) != BLOCK * BlockOf(i)
         || !k.entries[k.rings.index[h][p]].value.Held?
       case Moving(i, _, x) => x >= |s.pool| || |s.pool[x].cells| != BLOCK || s.pool[x].cells[OffsetOf(i)].Empty?
       case Emptying(i, _, x) => x >= |s.pool| || s.pool[x].emptied >= BLOCK || BlockOf(i) >= |s.gone|
       case Nulling(b, e, x) => e >= |k.entries| || x >= |s.pool| || b >= |k.held|
       case Freeing(x) => x >= |s.pool| || s.pool[x].free
  }

  // what the steps do to the shared state

  function Requested(s: Shared, x: nat, content: Memory): Shared {
    if x < |s.pool| then s.(pool := s.pool[x := s.pool[x].(free := false, use := Spare)])
    else s.(pool := s.pool + [content.(free := false, use := Spare)])
  }

  function Reset(s: Shared, x: nat): Shared
    requires x < |s.pool|
  {
    s.(pool := s.pool[x := s.pool[x].(emptied := 0)])
  }

  function Begun(s: Shared, e: nat, x: nat): Shared
    requires e < |s.index.entries| && x < |s.pool|
  {
    s.(index := s.index.Hold(e, x), pool := s.pool[x := s.pool[x].(use := For(|s.index.held|))],
       tailBlock := x, gone := s.gone + [{}])
  }

  function Written(s: Shared, v: nat): Shared
    requires s.tailBlock < |s.pool| && |s.pool[s.tailBlock].cells| == BLOCK
  {
    var m := s.pool[s.tailBlock];
    s.(pool := s.pool[s.tailBlock := m.(cells := m.cells[OffsetOf(s.tail) := Full(v)])])
  }

  function Published(s: Shared, v: nat): Shared {
    s.(tail := s.tail + 1, log := s.log + [v])
  }

  function Moved(s: Shared, i: nat, x: nat): Shared
    requires x < |s.pool| && |s.pool[x].cells| == BLOCK && s.pool[x].cells[OffsetOf(i)].Full?
  {
    var m := s.pool[x];
    s.(pool := s.pool[x := m.(cells := m.cells[OffsetOf(i) := Empty])], out := s.out[i := m.cells[OffsetOf(i)].v])
  }

  function Emptied(s: Shared, i: nat, x: nat): Shared
    requires x < |s.pool| && BlockOf(i) < |s.gone|
  {
    s.(pool := s.pool[x := s.pool[x].(emptied := s.pool[x].emptied + 1)],
       gone := s.gone[BlockOf(i) := s.gone[BlockOf(i)] + {OffsetOf(i)}])
  }

  function Cleared(s: Shared, t: nat, b: nat, e: nat, x: nat): Shared
    requires e < |s.index.entries| && x < |s.pool| && b < |s.index.held|
  {
    s.(index := s.index.Clear(e, b), pool := s.pool[x := s.pool[x].(use := Parting(t))])
  }

  function Freed(s: Shared, x: nat): Shared
    requires x < |s.pool|
  {
    s.(pool := s.pool[x := s.pool[x].(free := true, use := Unused)])
  }

  function ProducerNext(s: State, ok: bool, x: nat, content: Memory): State
    requires !ProducerFault(s.shared, s.producer) && Enabled(s, Produce(ok, x, content))
  {
    var m, k := s.shared, s.shared.index;
    match s.producer
    case Keying(v, grown) =>
      s.(producer := if grown || k.Key(k.NextEntry()) == INVALID then Taking(v, k.NextEntry()) else Valuing(v))
    case Valuing(v) =>
      s.(producer := if k.entries[k.NextEntry()].value == Null then Taking(v, k.NextEntry()) else Growing(v))
    case Growing(v) =>
      if ok then s.(shared := m.(index := k.Grow()), producer := Keying(v, true)) else s.(producer := Waiting)
    case Taking(v, e) => s.(shared := m.(index := k.SetKey(e)), producer := Listing(v, e))
    case Listing(v, e) => s.(shared := m.(index := k.MoveTail()), producer := Requesting(v, e))
    case Requesting(v, e) =>
      if ok then s.(shared := Requested(m, x, content), producer := Resetting(v, e, x))
      else s.(producer := Rewinding(e))
    case Rewinding(e) => s.(shared := m.(index := k.Rewind()), producer := Dropping(e))
    case Dropping(e) => s.(shared := m.(index := k.TakeBack(e)), producer := Waiting)
    case Resetting(v, e, y) => s.(shared := Reset(m, y), producer := Holding(v, e, y))
    case Holding(v, e, y) => s.(shared := Begun(m, e, y), producer := Writing(v))
    case Writing(v) => s.(shared := Written(m, v), producer := Publishing(v))
    case Publishing(v) => s.(shared := Published(m, v), producer := Waiting)
  }

  /** The consumer's next program counter. */
  function ConsumerThen(s: Shared, c: Consumer): Consumer
    requires !ConsumerFault(s, c)
  {
    var k := s.index;
    match c
    case Finding(i) => Tailing(i, k.Last())
    case Tailing(i, h) => Counting(i, h, k.tails[h])
    case Counting(i, h, p) =>
      Looking(i, h, Wrap(p + Offset(BlockOf(i), k.Key(k.rings.index[h][p])), k.rings.Cap(h)))
    case Looking(i, h, p) => Moving(i, k.rings.index[h][p], k.entries[k.rings.index[h][p]].value.block)
    case Moving(i, e, x) => Emptying(i, e, x)
    case Emptying(i, e, x) => if s.pool[x].emptied == BLOCK - 1 then Nulling(BlockOf(i), e, x) else Idle
    case Nulling(_, _, x) => Freeing(x)
    case Freeing(_) => Idle
  }

  /** What its step does to the shared state. */
  function ConsumerDoes(s: Shared, t: nat, c: Consumer): Shared
    requires !ConsumerFault(s, c)
  {
    match c
    case Moving(i, _, x) => Moved(s, i, x)
    case Emptying(i, _, x) => Emptied(s, i, x)
    case Nulling(b, e, x) => Cleared(s, t, b, e, x)
    case Freeing(x) => Freed(s, x)
    case _ => s
  }

  function Next(s: State, a: Action): State
    requires Enabled(s, a) && !Fault(s, a)
  {
    match a
    case Enqueue(v) => s.(producer := if s.shared.tail % BLOCK == 0 then Keying(v, false) else Writing(v))
    case Produce(ok, x, content) => ProducerNext(s, ok, x, content)
    case Claim(t) =>
      s.(shared := s.shared.(head := s.shared.head + 1), consumers := s.consumers[t := Finding(s.shared.head)])
    case Consume(t) =>
      var c := s.consumers[t];
      s.(shared := ConsumerDoes(s.shared, t, c), consumers := s.consumers[t := ConsumerThen(s.shared, c)])
  }

  // ---------------------------------------------------------------- invariant

  /** The element of index i is in its block. */
  ghost predicate Stored(s: Shared, i: nat) {
    && i < |s.log| && BlockOf(i) < |s.index.held| && s.index.held[BlockOf(i)].Here?
    && var x := s.index.held[BlockOf(i)].block;
    && x < |s.pool| && |s.pool[x].cells| == BLOCK && s.pool[x].cells[OffsetOf(i)] == Full(s.log[i])
  }

  /** Index i was claimed and is not counted as dequeued yet. */
  ghost predicate Claimed(s: Shared, i: nat) {
    i < s.head && BlockOf(i) < |s.gone| && OffsetOf(i) !in s.gone[BlockOf(i)]
  }

  ghost predicate Pending(s: Shared, i: nat) {
    Claimed(s, i) && Stored(s, i) && i !in s.out
  }

  /** The entry and the block of elements of block number b. */
  ghost predicate Places(s: Shared, b: nat, e: nat, x: nat) {
    && b < |s.index.held| && s.index.held[b] == Here(x)
    && s.index.Shaped() && e == s.index.rings.EntryOf(b)
  }

  ghost predicate ConsumerInv(s: Shared, t: nat, c: Consumer) {
    match c
    case Idle => true
    case Finding(i) => Pending(s, i)
    case Tailing(i, h) => Pending(s, i) && s.index.Shaped() && s.index.Sees(h, BlockOf(i))
    case Counting(i, h, p) =>
      Pending(s, i) && s.index.Shaped() && s.index.Sees(h, BlockOf(i)) && s.index.TailSeen(h, p)
    case Looking(i, h, p) =>
      && Pending(s, i) && s.index.Shaped() && s.index.Sees(h, BlockOf(i))
      && p == s.index.rings.Pos(h, BlockOf(i))
    case Moving(i, e, x) => Pending(s, i) && Places(s, BlockOf(i), e, x)
    case Emptying(i, e, x) => Claimed(s, i) && Places(s, BlockOf(i), e, x) && i in s.out
    case Nulling(b, e, x) => Places(s, b, e, x) && b < |s.gone| && |s.gone[b]| == BLOCK
    case Freeing(x) => x < |s.pool| && s.pool[x].use == Parting(t)
  }

  predicate Holds(c: Consumer, i: nat) {
    match c
    case Idle => false
    case Finding(j) => i == j
    case Tailing(j, _) => i == j
    case Counting(j, _, _) => i == j
    case Looking(j, _, _) => i == j
    case Moving(j, _, _) => i == j
    case Emptying(j, _, _) => i == j
    case Nulling(_, _, _) => false
    case Freeing(_) => false
  }

  /** No two consumers have the same index, or take out the same block. */
  ghost predicate Apart(c: Consumer, d: Consumer) {
    && (forall i {:trigger Holds(c, i)} {:trigger Holds(d, i)} :: !(Holds(c, i) && Holds(d, i)))
    && !(c.Nulling? && d.Nulling? && c.b == d.b)
  }

  ghost predicate MemoryInv(m: Memory, x: nat, held: seq<Holding>) {
    && |m.cells| == BLOCK
    && (m.free <==> m.use == Unused)
    && (m.use.For? ==> m.use.b < |held| && held[m.use.b] == Here(x))
  }

  /** What was counted of block b, and what the counter of its elements says. */
  ghost predicate BlockInv(s: Shared, b: nat)
    requires b < |s.index.held| == |s.gone|
  {
    && (forall o {:trigger o in s.gone[b]} :: o in s.gone[b] ==> o < BLOCK && BLOCK * b + o < s.head)
    && match s.index.held[b]
       case Here(x) =>
         x < |s.pool| && s.pool[x].use == For(b) && s.pool[x].emptied == |s.gone[b]|
       case Away => |s.gone[b]| == BLOCK
  }

  ghost predicate ProducerInv(s: Shared, p: Producer)
    requires s.index.Inv()
  {
    var k, m := s.index, |s.index.held|;
    match p
    case Waiting => k.phase == BlockIndex.Resting && s.tail <= BLOCK * m < s.tail + BLOCK && TailBlockInv(s)
    case Keying(_, grown) => k.phase == BlockIndex.Resting && s.tail == BLOCK * m && (grown ==> GrownInv(k))
    case Valuing(_) =>
      && k.phase == BlockIndex.Resting && s.tail == BLOCK * m
      && k.NextEntry() < |k.entries| && k.Key(k.NextEntry()) != INVALID
    case Growing(_) =>
      && k.phase == BlockIndex.Resting && s.tail == BLOCK * m && k.begun == m
      && k.NextEntry() < |k.entries| && k.Key(k.NextEntry()) != INVALID
    case Taking(_, e) => k.phase == BlockIndex.Resting && s.tail == BLOCK * m && e == k.NextEntry() && k.Vacant()
    case Listing(_, e) => k.phase == Keyed && s.tail == BLOCK * m && e == k.rings.EntryOf(m)
    case Requesting(_, e) => k.phase == Reserved && s.tail == BLOCK * m && e == k.rings.EntryOf(m)
    case Rewinding(e) => k.phase == Reserved && s.tail == BLOCK * m && e == k.rings.EntryOf(m)
    case Dropping(e) => k.phase == Rewound && s.tail == BLOCK * m && e == k.rings.EntryOf(m)
    case Resetting(_, e, x) =>
      k.phase == Reserved && s.tail == BLOCK * m && e == k.rings.EntryOf(m) && IsSpare(s, x)
    case Holding(_, e, x) =>
      && k.phase == Reserved && s.tail == BLOCK * m && e == k.rings.EntryOf(m) && IsSpare(s, x)
      && s.pool[x].emptied == 0
    case Writing(_) => k.phase == BlockIndex.Resting && s.tail < BLOCK * m <= s.tail + BLOCK && TailBlockInv(s)
    case Publishing(v) =>
      && k.phase == BlockIndex.Resting && s.tail < BLOCK * m <= s.tail + BLOCK && TailBlockInv(s)
      && s.pool[s.tailBlock].cells[OffsetOf(s.tail)] == Full(v)
  }

  ghost predicate GrownInv(k: Index)
    requires k.Shaped()
  {
    k.NextEntry() < |k.entries| && k.Key(k.NextEntry()) == INVALID
  }

  ghost predicate IsSpare(s: Shared, x: nat) {
    x < |s.pool| && s.pool[x].use == Spare
  }

  /** While the last block has room, it is the producer's tail block. */
  ghost predicate TailBlockInv(s: Shared) {
    s.tail < BLOCK * |s.index.held| ==>
      && s.index.held[|s.index.held| - 1] == Here(s.tailBlock)
      && s.tailBlock < |s.pool| && |s.pool[s.tailBlock].cells| == BLOCK
  }

  /** What came out is what went in; an index that was claimed did come out or is in a consumer's hands. */
  ghost predicate OutInv(s: Shared) {
    forall i {:trigger s.out[i]} :: i in s.out ==> i < s.head && i < |s.log| && s.out[i] == s.log[i]
  }

  ghost predicate Accounted(s: Shared, consumers: seq<Consumer>, i: nat) {
    i in s.out || exists t {:trigger consumers[t]} :: 0 <= t < |consumers| && Holds(consumers[t], i)
  }

  ghost predicate Capacities(rings: Rings) {
    forall h {:trigger rings.index[h]} :: 0 <= h < |rings.index| ==> IsCapacity(|rings.index[h]|)
  }

  ghost predicate SharedInv(s: Shared) {
    && Capacities(s.index.rings)
    && s.index.Inv() && |s.gone| == |s.index.held| && |s.log| == s.tail && s.head <= s.tail && OutInv(s)
    && (forall x {:trigger s.pool[x]} :: 0 <= x < |s.pool| ==> MemoryInv(s.pool[x], x, s.index.held))
    && (forall b {:trigger BlockInv(s, b)} :: 0 <= b < |s.gone| ==> BlockInv(s, b))
    && (forall i {:trigger Stored(s, i)} :: s.head <= i < s.tail ==> Stored(s, i))
  }

  ghost predicate ConsumersInv(s: Shared, consumers: seq<Consumer>) {
    && (forall t {:trigger consumers[t]} :: 0 <= t < |consumers| ==> ConsumerInv(s, t, consumers[t]))
    && (forall t, u {:trigger consumers[t], consumers[u]} :: 0 <= t < u < |consumers| ==>
          Apart(consumers[t], consumers[u]))
    && (forall i {:trigger Accounted(s, consumers, i)} :: 0 <= i < s.head ==> Accounted(s, consumers, i))
  }

  /** A block that is neither free nor in the index is in the hands of the producer or of a consumer. */
  ghost predicate Carried(m: Memory, x: nat, p: Producer, consumers: seq<Consumer>) {
    match m.use
    case Spare => (p.Resetting? || p.Holding?) && p.x == x
    case Parting(t) => t < |consumers| && consumers[t] == Freeing(x)
    case _ => true
  }

  ghost predicate NoneLeaked(s: State) {
    forall x {:trigger s.shared.pool[x]} :: 0 <= x < |s.shared.pool| ==>
      Carried(s.shared.pool[x], x, s.producer, s.consumers)
  }

  ghost predicate Inv(s: State) {
    && SharedInv(s.shared) && ProducerInv(s.shared, s.producer) && ConsumersInv(s.shared, s.consumers)
    && NoneLeaked(s)
  }

  // ---------------------------------------------------------------- no step is a fault

  lemma NoFault(s: State, a: Action)
    requires Inv(s) && Enabled(s, a)
    ensures !Fault(s, a)
  {
    match a
    case Enqueue(_) =>
    case Produce(_, _, _) => ProducerSafe(s.shared, s.producer);
    case Claim(_) =>
    case Consume(t) => ConsumerSafe(s.shared, t, s.consumers[t]);
  }

  lemma ProducerSafe(s: Shared, p: Producer)
    requires SharedInv(s) && ProducerInv(s, p) && !p.Waiting?
    ensures !ProducerFault(s, p)
  {
    var k := s.index;
    k.EntryBelow(|k.held|);
    if k.phase != Reserved { k.NextIsOwn(); }
  }

  lemma ConsumerSafe(s: Shared, t: nat, c: Consumer)
    requires SharedInv(s) && ConsumerInv(s, t, c) && !c.Idle?
    ensures !ConsumerFault(s, c)
  {
    match c
    case Looking(i, h, p) => s.index.LookupEntry(h, BlockOf(i));
    case Emptying(i, _, x) =>
      assert BlockInv(s, BlockOf(i));
      NotFull(s.gone[BlockOf(i)], OffsetOf(i));
    case Nulling(b, e, x) => s.index.EntryBelow(b); assert BlockInv(s, b);
    case _ =>
  }

  /** A set of offsets that leaves one out is not full. */
  lemma NotFull(gone: set<nat>, o: nat)
    requires o < BLOCK && o !in gone && forall p :: p in gone ==> p < BLOCK
    ensures |gone| < BLOCK
  {
    OffsetsCount(BLOCK);
    SubsetSize(gone + {o}, Offsets(BLOCK));
  }

  function Offsets(n: nat): set<nat> {
    if n == 0 then {} else Offsets(n - 1) + {n - 1}
  }

  lemma {:induction false} OffsetsCount(n: nat)
    ensures |Offsets(n)| == n && forall o: nat :: o in Offsets(n) <==> o < n
  {
    if n > 0 { OffsetsCount(n - 1); }
  }
}

/** What the implicit producer guarantees over whole runs: it refines a first-in first-out queue. */
module QueueRuns {
  import opened Arith
  import opened BlockIndex
  import opened FiniteSets
  import opened ImplicitQueue
  import opened QueueSteps

  // ---------------------------------------------------------------- whole runs

  /** A new producer over an empty pool, with its first index of 32 entries. */
  function Init(threads: nat): State {
    State(Shared(Initial(32), [], 0, 0, 0, [], [], map[]), Waiting, seq(threads, _ => Idle))
  }

  /** The state after a run of any interleaving. An action that is not possible when its turn comes does
    * nothing; one that would be a fault ends the run. */
  function Run(threads: nat, actions: seq<Action>): State {
    if actions == [] then Init(threads)
    else
      var s, a := Run(threads, actions[..|actions| - 1]), actions[|actions| - 1];
      if Enabled(s, a) && !Fault(s, a) then Next(s, a) else s
  }

  lemma {:induction false} RunInv(threads: nat, actions: seq<Action>)
    ensures Inv(Run(threads, actions))
  {
    if actions == [] {
      InitialInv(32);
      assert Pow2(5) == 32 && IsCapacity(32);
    } else {
      RunInv(threads, actions[..|actions| - 1]);
      var s, a := Run(threads, actions[..|actions| - 1]), actions[|actions| - 1];
      if Enabled(s, a) {
        StepKeepsInv(s, a);
      }
    }
  }

  /** In no run does an assertion fail, an entry or a block turn out missing, an element be read that is not
    * there, or a block be given back twice. */
  lemma RunsWithoutFault(threads: nat, actions: seq<Action>, a: Action)
    requires Enabled(Run(threads, actions), a)
    ensures !Fault(Run(threads, actions), a)
  {
    RunInv(threads, actions);
    NoFault(Run(threads, actions), a);
  }

  // ---------------------------------------------------------------- what was enqueued

  /** The calls of enqueue in a run: the value of the last one begun, the values of those that came to store the
    * tail, in order, how many were begun and how many failed. */
  datatype Calls = Calls(offered: nat, entered: seq<nat>, begun: nat, failed: nat)

  const NONE := Calls(0, [], 0, 0)

  /** Memory for a larger index or for a block was asked for in vain. */
  predicate Refusal(p: Producer, a: Action) {
    a.Produce? && !a.ok && (p.Growing? || p.Requesting?)
  }

  /** One action more, of a producer that is at p, and whether it stored the tail. */
  function Noted(c: Calls, p: Producer, a: Action, stored: bool): Calls {
    Calls(if a.Enqueue? && p.Waiting? then a.v else c.offered,
          if stored then c.entered + [c.offered] else c.entered,
          c.begun + (if a.Enqueue? && p.Waiting? then 1 else 0),
          c.failed + (if Refusal(p, a) then 1 else 0))
  }

  function CallsOf(threads: nat, actions: seq<Action>): Calls {
    if actions == [] then NONE
    else
      var front, a := actions[..|actions| - 1], actions[|actions| - 1];
      var s := Run(threads, front);
      Noted(CallsOf(threads, front), s.producer, a, s.shared.tail < Run(threads, actions).shared.tail)
  }

  /** A call is under way that did not fail yet. */
  predicate UnderWay(p: Producer) {
    !p.Waiting? && !p.Rewinding? && !p.Dropping?
  }

  /** What the producer has in hand is the value given. */
  predicate Carries(p: Producer, v: nat) {
    match p
    case Keying(w, _) => w == v
    case Valuing(w) => w == v
    case Growing(w) => w == v
    case Taking(w, _) => w == v
    case Listing(w, _) => w == v
    case Requesting(w, _) => w == v
    case Resetting(w, _, _) => w == v
    case Holding(w, _, _) => w == v
    case Writing(w) => w == v
    case Publishing(w) => w == v
    case _ => true
  }

  /** The log has the values that were enqueued, and every other call begun failed but for the one under way. */
  predicate Told(c: Calls, s: State) {
    && s.shared.log == c.entered && Carries(s.producer, c.offered)
    && c.begun == |s.shared.log| + c.failed + if UnderWay(s.producer) then 1 else 0
  }

  lemma StepTold(s: State, a: Action, c: Calls)
    requires Enabled(s, a) && !Fault(s, a) && Told(c, s)
    ensures var s' := Next(s, a); Told(Noted(c, s.producer, a, s.shared.tail < s'.shared.tail), s')
  {
  }

  lemma NoStepTold(s: State, a: Action, c: Calls)
    requires !Enabled(s, a) && Told(c, s)
    ensures Told(Noted(c, s.producer, a, false), s)
  {
  }

  /** In every run the values logged are, in order, those of the calls of enqueue that stored the tail; every other
    * call begun failed for lack of memory, but for the one under way. */
  lemma {:induction false} LogIsWhatWasEnqueued(threads: nat, actions: seq<Action>)
    ensures Told(CallsOf(threads, actions), Run(threads, actions))
  {
    if actions != [] {
      var front, a := actions[..|actions| - 1], actions[|actions| - 1];
      LogIsWhatWasEnqueued(threads, front);
      var s, c := Run(threads, front), CallsOf(threads, front);
      if Enabled(s, a) {
        RunsWithoutFault(threads, front, a);
        StepTold(s, a, c);
      } else {
        NoStepTold(s, a, c);
      }
    }
  }

  /** At most how many accesses the producer has left in its call. */
  function ProducerLeft(p: Producer): nat {
    match p
    case Waiting => 0
    case Keying(_, grown) => if grown then 8 else 11
    case Valuing(_) => 10
    case Growing(_) => 9
    case Taking(_, _) => 7
    case Listing(_, _) => 6
    case Requesting(_, _) => 5
    case Rewinding(_) => 2
    case Dropping(_) => 1
    case Resetting(_, _, _) => 4
    case Holding(_, _, _) => 3
    case Writing(_) => 2
    case Publishing(_) => 1
  }

  function ConsumerLeft(c: Consumer): nat {
    match c
    case Idle => 0
    case Finding(_) => 8
    case Tailing(_, _) => 7
    case Counting(_, _, _) => 6
    case Looking(_, _, _) => 5
    case Moving(_, _, _) => 4
    case Emptying(_, _, _) => 3
    case Nulling(_, _, _) => 2
    case Freeing(_) => 1
  }

  /** Calls end after at most eleven accesses of their own, whatever the others do. An enqueue that is given all the
    * memory it asks for ends with its store of the tail. */
  lemma OperationsEnd(threads: nat, actions: seq<Action>, a: Action)
    requires Enabled(Run(threads, actions), a)
    ensures var s := Run(threads, actions);
      && !Fault(s, a)
      && (a.Produce? ==> ProducerLeft(Next(s, a).producer) < ProducerLeft(s.producer))
      && (a.Consume? ==> ConsumerLeft(Next(s, a).consumers[a.t]) < ConsumerLeft(s.consumers[a.t]))
      && (a.Produce? && a.ok && UnderWay(s.producer) ==>
            UnderWay(Next(s, a).producer) || Next(s, a).shared.tail == s.shared.tail + 1)
  {
    RunsWithoutFault(threads, actions, a);
    var s := Run(threads, actions);
    match a
    case Produce(ok, x, content) => ProduceLeaves(s, ok, x, content);
    case Consume(t) => ConsumeLeaves(s, t);
    case _ =>
  }

  lemma ProduceLeaves(s: State, ok: bool, x: nat, content: Memory)
    requires Enabled(s, Produce(ok, x, content)) && !ProducerFault(s.shared, s.producer)
    ensures var s' := ProducerNext(s, ok, x, content);
      && ProducerLeft(s'.producer) < ProducerLeft(s.producer)
      && (ok && UnderWay(s.producer) ==> UnderWay(s'.producer) || s'.shared.tail == s.shared.tail + 1)
  {
  }

  lemma ConsumeLeaves(s: State, t: nat)
    requires Enabled(s, Consume(t)) && !Fault(s, Consume(t))
    ensures ConsumerLeft(ConsumerThen(s.shared, s.consumers[t])) < ConsumerLeft(s.consumers[t])
  {
  }

  // ---------------------------------------------------------------- emptied blocks

  /** A block that is emptied but still in the index is in the hands of a consumer about to take it out. */
  ghost predicate Released(s: State, b: nat) {
    b < |s.shared.index.held| && b < |s.shared.gone| && s.shared.index.held[b].Here? && |s.shared.gone[b]| == BLOCK ==>
      TakesOut(s.consumers, b)
  }

  ghost predicate TakesOut(consumers: seq<Consumer>, b: nat) {
    exists t :: 0 <= t < |consumers| && consumers[t].Nulling? && consumers[t].b == b
  }

  lemma ProducerKeepsReleased(s: State, a: Action, b: nat)
    requires Inv(s) && Enabled(s, a) && !Fault(s, a) && (a.Enqueue? || a.Produce?) && Released(s, b)
    ensures Released(Next(s, a), b)
  {
    var s' := Next(s, a);
    assert s'.consumers == s.consumers;
  }

  lemma OthersTakeOut(consumers: seq<Consumer>, t: nat, c: Consumer, b: nat)
    requires t < |consumers| && TakesOut(consumers, b) && !(consumers[t].Nulling? && consumers[t].b == b)
    ensures TakesOut(consumers[t := c], b)
  {
    var u :| 0 <= u < |consumers| && consumers[u].Nulling? && consumers[u].b == b;
    assert consumers[t := c][u] == consumers[u];
  }

  lemma ConsumerKeepsReleased(s: State, t: nat, b: nat)
    requires Inv(s) && t < |s.consumers| && !s.consumers[t].Idle? && !ConsumerFault(s.shared, s.consumers[t])
    requires Released(s, b)
    ensures Released(Next(s, Consume(t)), b)
  {
    var c, s' := s.consumers[t], Next(s, Consume(t));
    assert ConsumerInv(s.shared, t, c);
    if c.Emptying? && BlockOf(c.i) == b {
      assert BlockInv(s.shared, b);
      if s'.consumers[t].Nulling? {
        assert TakesOut(s'.consumers, b);
      }
    } else if TakesOut(s.consumers, b) && !(c.Nulling? && c.b == b) {
      OthersTakeOut(s.consumers, t, ConsumerThen(s.shared, c), b);
    }
  }

  /** In every run a block all of whose elements are counted as dequeued is out of the index, but for the time its
    * last consumer needs to take it out. */
  lemma {:induction false} EmptiedBlocksAreReleased(threads: nat, actions: seq<Action>, b: nat)
    ensures Released(Run(threads, actions), b)
  {
    if actions != [] {
      var front, a := actions[..|actions| - 1], actions[|actions| - 1];
      EmptiedBlocksAreReleased(threads, front, b);
      RunInv(threads, front);
      var s := Run(threads, front);
      if Enabled(s, a) {
        NoFault(s, a);
        match a
        case Claim(t) =>
          if TakesOut(s.consumers, b) { OthersTakeOut(s.consumers, t, Finding(s.shared.head), b); }
        case Consume(t) => ConsumerKeepsReleased(s, t, b);
        case _ => ProducerKeepsReleased(s, a, b);
      }
    }
  }

  /** What a consumer is about to take is what was enqueued at its index, and nobody took it before. */
  lemma TakesWhatWasEnqueued(threads: nat, actions: seq<Action>, t: nat)
    requires var s := Run(threads, actions); t < |s.consumers| && s.consumers[t].Moving?
    ensures var s := Run(threads, actions);
      var c := s.consumers[t];
      && c.x < |s.shared.pool| && |s.shared.pool[c.x].cells| == BLOCK && c.i < |s.shared.log|
      && s.shared.pool[c.x].cells[OffsetOf(c.i)] == Full(s.shared.log[c.i])
      && s.shared.log == CallsOf(threads, actions).entered
      && c.i !in s.shared.out
  {
    LogIsWhatWasEnqueued(threads, actions);
    RunInv(threads, actions);
    assert ConsumerInv(Run(threads, actions).shared, t, Run(threads, actions).consumers[t]);
  }

  /** The implicit producer refines a first-in first-out queue: indices are claimed in order, each value comes
    * out for the index it went in at, and when no consumer is under way the values that came out are, in the
    * order of their indices, the first that went in. */
  lemma RefinesFifo(threads: nat, actions: seq<Action>)
    ensures var s := Run(threads, actions);
      && s.shared.head <= s.shared.tail == |s.shared.log| && s.shared.log == CallsOf(threads, actions).entered
      && (forall i :: i in s.shared.out ==> i < s.shared.head && s.shared.out[i] == s.shared.log[i])
      && ((forall c :: c in s.consumers ==> c.Idle?) ==>
            forall i: nat :: i in s.shared.out <==> i < s.shared.head)
  {
    RunInv(threads, actions);
    LogIsWhatWasEnqueued(threads, actions);
    var s := Run(threads, actions);
    if forall c :: c in s.consumers ==> c.Idle? {
      forall i: nat
        ensures i in s.shared.out <==> i < s.shared.head
      {
        if i < s.shared.head { assert Accounted(s.shared, s.consumers, i); }
      }
    }
  }

  /** Counting from position p of header h, the lookup arrives at an entry with the base index of block b
    * and the block that has its elements. */
  ghost predicate FindsBlock(s: Shared, h: nat, p: nat, b: nat)
    requires s.index.Shaped() && s.index.TailSeen(h, p)
  {
    var k := s.index;
    var q := Wrap(p + Offset(b, k.Key(k.rings.index[h][p])), k.rings.Cap(h));
    && k.rings.index[h][q] < |k.entries|
    && var e := k.entries[k.rings.index[h][q]];
    && e.key == BLOCK * b && e.value.Held?
    && (forall i: nat {:trigger BlockOf(i)} :: s.head <= i < s.tail && BlockOf(i) == b ==>
          HasElement(s, e.value.block, i))
  }

  ghost predicate HasElement(s: Shared, x: nat, i: nat) {
    && i < |s.log| && x < |s.pool| && |s.pool[x].cells| == BLOCK && s.pool[x].cells[OffsetOf(i)] == Full(s.log[i])
  }

  lemma LookupWorks(s: Shared, h: nat, p: nat, b: nat)
    requires SharedInv(s) && b < |s.gone| && |s.gone[b]| < BLOCK && s.index.TailSeen(h, p)
    requires h == s.index.Last() || s.index.rings.Listed(h, b)
    ensures FindsBlock(s, h, p, b)
  {
    assert BlockInv(s, b) && s.index.held[b].Here?;
    s.index.LookupPosition(h, p, b);
    s.index.LookupEntry(h, b);
    forall i: nat | s.head <= i < s.tail && BlockOf(i) == b
      ensures HasElement(s, s.index.held[b].block, i)
    {
      assert Stored(s, i);
    }
  }

  /** As long as not all elements of a block are dequeued, the tail-relative lookup finds it, whether by the
    * current header or by an older one that was loaded while the block was listed. */
  lemma LookupFindsBlock(threads: nat, actions: seq<Action>, h: nat, p: nat, b: nat)
    requires var s := Run(threads, actions).shared;
      && b < |s.gone| && |s.gone[b]| < BLOCK
      && s.index.Shaped() && s.index.TailSeen(h, p)
      && (h == s.index.Last() || s.index.rings.Listed(h, b))
    ensures FindsBlock(Run(threads, actions).shared, h, p, b)
  {
    RunInv(threads, actions);
    LookupWorks(Run(threads, actions).shared, h, p, b);
  }

  /** Every index has a power of two of entries, as the masks and the unsigned division of the lookup need. */
  lemma CapacitiesArePowers(threads: nat, actions: seq<Action>, h: nat)
    requires h < |Run(threads, actions).shared.index.rings.index|
    ensures IsCapacity(|Run(threads, actions).shared.index.rings.index[h]|)
  {
    RunInv(threads, actions);
    assert Capacities(Run(threads, actions).shared.index.rings);
  }

  /** The tail of every header may be counted from as soon as a block was inserted. */
  lemma TailsAreSeen(threads: nat, actions: seq<Action>, h: nat)
    requires var s := Run(threads, actions).shared; |s.gone| > 0 && h < |s.index.tails|
    ensures var s := Run(threads, actions).shared; s.index.Shaped() && s.index.TailSeen(h, s.index.tails[h])
  {
    RunInv(threads, actions);
    Run(threads, actions).shared.index.TailHasKey(h);
  }

  /** No block of elements is lost: when nobody is under way, each is free in the pool or holds the elements of
    * exactly one block number, of which some are not dequeued yet. */
  lemma NoBlockIsLost(threads: nat, actions: seq<Action>, x: nat)
    requires var s := Run(threads, actions);
      && s.producer.Waiting? && (forall c :: c in s.consumers ==> c.Idle?)
      && x < |s.shared.pool|
    ensures var s := Run(threads, actions).shared;
      if s.pool[x].free then forall b {:trigger s.index.held[b]} :: 0 <= b < |s.index.held| ==> s.index.held[b] != Here(x)
      else exists b :: KeepsElements(s, x, b)
  {
    RunInv(threads, actions);
    var s := Run(threads, actions);
    PoolAtRest(s, x);
    if !s.shared.pool[x].free {
      var b: nat :| OnlyHome(s.shared.index.held, x, b);
      EmptiedBlocksAreReleased(threads, actions, b);
      NotEmptiedAtRest(s, b);
      assert KeepsElements(s.shared, x, b);
    }
  }

  /** Block x holds the elements of block number b alone, and some of them are not dequeued. */
  ghost predicate KeepsElements(s: Shared, x: nat, b: nat) {
    OnlyHome(s.index.held, x, b) && b < |s.gone| && |s.gone[b]| < BLOCK
  }

  lemma NotEmptiedAtRest(s: State, b: nat)
    requires SharedInv(s.shared) && Released(s, b) && (forall c :: c in s.consumers ==> c.Idle?)
    requires b < |s.shared.index.held| && s.shared.index.held[b].Here?
    ensures b < |s.shared.gone| && |s.shared.gone[b]| < BLOCK
  {
    assert BlockInv(s.shared, b);
    OffsetsAreFew(s.shared.gone[b]);
    forall t | 0 <= t < |s.consumers|
      ensures s.consumers[t].Idle?
    {
      assert s.consumers[t] in s.consumers;
    }
  }

  lemma OffsetsAreFew(offsets: set<nat>)
    requires forall o :: o in offsets ==> o < BLOCK
    ensures |offsets| <= BLOCK
  {
    OffsetsCount(BLOCK);
    SubsetSize(offsets, Offsets(BLOCK));
  }

  ghost predicate OnlyHome(held: seq<Holding>, x: nat, b: nat) {
    && b < |held| && held[b] == Here(x)
    && forall c {:trigger held[c]} :: 0 <= c < |held| && held[c] == Here(x) ==> c == b
  }

  lemma PoolAtRest(s: State, x: nat)
    requires Inv(s) && s.producer.Waiting? && (forall c :: c in s.consumers ==> c.Idle?) && x < |s.shared.pool|
    ensures if s.shared.pool[x].free
            then forall b {:trigger s.shared.index.held[b]} :: 0 <= b < |s.shared.index.held| ==> s.shared.index.held[b] != Here(x)
            else exists b :: OnlyHome(s.shared.index.held, x, b)
  {
    var m, held := s.shared.pool[x], s.shared.index.held;
    assert MemoryInv(m, x, held) && Carried(m, x, s.producer, s.consumers);
    forall b | 0 <= b < |held| && held[b] == Here(x)
      ensures m.use == For(b)
    {
      assert BlockInv(s.shared, b);
    }
    assert forall t {:trigger s.consumers[t]} :: 0 <= t < |s.consumers| ==> s.consumers[t] in s.consumers;
    match m.use
    case For(b) => assert OnlyHome(held, x, b);
    case _ =>
  }
}

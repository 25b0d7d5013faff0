/**
  The whole queue with its pool of blocks: counters, implicit producer and free list together.  The producer
  gets a block by `try_get`, or a new one; a consumer that emptied a block calls `add`.  Inside the list all
  of them interleave, access by access.
*/
module PooledQueue {
  import opened BlockIndex
  import List = FreeList
  import Queue = ImplicitQueue
  import QueueRuns
  import Whole = WholeQueue

  /** Thread t of the list is consumer t, and the one after them the producer. */
  datatype State = State(list: List.State, whole: Whole.State)

  datatype Step =
    | Look                                     // the producer calls try_get
    | Create(ok: bool, content: Queue.Memory)  // it takes a new block, or finds no memory for one
    | GiveBack(t: nat)                         // consumer t calls add
    | Go(t: nat)                               // an access of thread t inside the list
    | Other(step: Whole.Step)                  // any access outside of it

  function Pool(s: State): seq<Queue.Memory> { s.whole.queue.shared.pool }
  function Consumers(s: State): seq<Queue.Consumer> { s.whole.queue.consumers }
  function Maker(s: State): nat { |Consumers(s)| }

  predicate Asks(s: State) {
    s.whole.queue.producer.Requesting?
  }

  predicate GivesBack(s: State, t: nat) {
    t < |Consumers(s)| && Consumers(s)[t].Freeing?
  }

  predicate Outside(s: State, t: nat) {
    t < |s.list.pcs| && s.list.pcs[t].Idle?
  }

  /** The two single steps that the list stands for. */
  predicate AboutPool(s: State, step: Whole.Step) {
    match step
    case Count(_) => false
    case Access(a) => (a.Produce? && Asks(s)) || (a.Consume? && GivesBack(s, a.t))
  }

  /** Nothing here says that the block a consumer adds is one to add, or that the block `try_get` comes back with
    * is one the pool has. The list has nodes for all blocks there will ever be. */
  predicate Possible(s: State, step: Step) {
    match step
    case Look => Asks(s) && List.Enabled(s.list, List.CallGet(Maker(s)))
    case Create(ok, content) =>
      Asks(s) && Outside(s, Maker(s)) && |content.cells| == BLOCK && |Pool(s)| < |s.list.nodes|
    case GiveBack(t) => GivesBack(s, t) && Outside(s, t)
    case Go(t) => List.Enabled(s.list, List.Go(t))
    case Other(w) => Whole.Possible(s.whole, w) && !AboutPool(s, w) && (w.Count? ==> Outside(s, w.t))
  }

  const NOTHING := Queue.Memory([], 0, false, Queue.Unused)

  /** The step of the queue that comes with a step, if any. */
  function Companion(s: State, step: Step): seq<Whole.Step>
    requires Possible(s, step)
  {
    match step
    case Look => []
    case Create(ok, content) => [Whole.Access(Queue.Produce(ok, |Pool(s)|, content))]
    case GiveBack(t) => [Whole.Access(Queue.Consume(t))]
    case Go(t) =>
      (match List.EventOf(s.list, List.Go(t))
       case Taken(x) => [Whole.Access(Queue.Produce(true, x, NOTHING))]
       case _ => [])
    case Other(w) => [w]
  }

  /** And the step of the list. */
  function ListAction(s: State, step: Step): seq<List.Action>
    requires Possible(s, step)
  {
    match step
    case Look => [List.CallGet(Maker(s))]
    case Create(_, _) => []
    case GiveBack(t) => [List.CallAdd(t, Consumers(s)[t].x)]
    case Go(t) => [List.Go(t)]
    case Other(_) => []
  }

  predicate ListReady(s: State, acts: seq<List.Action>) {
    acts == [] || List.Enabled(s.list, acts[0])
  }

  predicate QueueReady(s: State, steps: seq<Whole.Step>) {
    steps == [] || Whole.Possible(s.whole, steps[0])
  }

  /** A step for which list and queue are not both ready would be left undone. */
  function Next(s: State, step: Step): State
    requires Possible(s, step)
  {
    var acts, steps := ListAction(s, step), Companion(s, step);
    if !ListReady(s, acts) || !QueueReady(s, steps) then s
    else State(if acts == [] then s.list else List.Apply(s.list, acts[0]),
               if steps == [] then s.whole else Whole.Next(s.whole, steps[0]))
  }

  function Init(nodes: nat, threads: nat): State {
    State(List.Init(nodes, threads + 1), Whole.Run(threads, []))
  }

  function Run(nodes: nat, threads: nat, steps: seq<Step>): State {
    if steps == [] then Init(nodes, threads)
    else
      var s, step := Run(nodes, threads, steps[..|steps| - 1]), steps[|steps| - 1];
      if Possible(s, step) then Next(s, step) else s
  }

  // ---------------------------------------------------------------- the two runs inside

  lemma {:induction false} RunsWhole(nodes: nat, threads: nat, steps: seq<Step>) returns (inner: seq<Whole.Step>)
    ensures Run(nodes, threads, steps).whole == Whole.Run(threads, inner)
  {
    inner := [];
    if steps != [] {
      var front, step := steps[..|steps| - 1], steps[|steps| - 1];
      inner := RunsWhole(nodes, threads, front);
      var s := Run(nodes, threads, front);
      if Possible(s, step) && Next(s, step).whole != s.whole {
        var w := Companion(s, step)[0];
        assert (inner + [w])[..|inner + [w]| - 1] == inner;
        inner := inner + [w];
      }
    }
  }

  lemma {:induction false} RunsList(nodes: nat, threads: nat, steps: seq<Step>)
    returns (ss: seq<List.State>, acts: seq<List.Action>)
    requires threads + 1 < List.FLAG - 1
    ensures List.IsRun(nodes, threads + 1, ss, acts) && ss[|acts|] == Run(nodes, threads, steps).list
  {
    if steps == [] {
      ss, acts := [List.Init(nodes, threads + 1)], [];
    } else {
      var front, step := steps[..|steps| - 1], steps[|steps| - 1];
      ss, acts := RunsList(nodes, threads, front);
      var s := Run(nodes, threads, front);
      if Possible(s, step) && Next(s, step).list != s.list {
        var a := ListAction(s, step)[0];
        ListRunGrows(nodes, threads + 1, ss, acts, a, List.Apply(s.list, a));
        ss, acts := ss + [List.Apply(s.list, a)], acts + [a];
      }
    }
  }

  lemma ListRunGrows(nodes: nat, threads: nat, ss: seq<List.State>, acts: seq<List.Action>, a: List.Action, l: List.State)
    requires List.IsRun(nodes, threads, ss, acts) && List.Enabled(ss[|acts|], a) && l == List.Apply(ss[|acts|], a)
    ensures List.IsRun(nodes, threads, ss + [l], acts + [a])
  {
    var ss', acts' := ss + [l], acts + [a];
    forall i | 0 <= i < |acts'|
      ensures List.Enabled(ss'[i], acts'[i]) && ss'[i + 1] == List.Apply(ss'[i], acts'[i])
    {
      if i < |acts| {
        assert List.Enabled(ss[i], acts[i]) && ss[i + 1] == List.Apply(ss[i], acts[i]);
      }
    }
  }

  // ---------------------------------------------------------------- they agree

  /** The program counters of `add`, and those of `try_get`. */
  predicate Adding(pc: List.Pc) {
    match pc
    case Idle => true
    case AddFlag(_) => true
    case PushLoad(_, k) => k.Return?
    case PushNext(_, _, k) => k.Return?
    case PushRefs(_, _, k) => k.Return?
    case PushCas(_, _, k) => k.Return?
    case PushUndo(_, _, k) => k.Return?
    case _ => false
  }

  predicate Getting(pc: List.Pc) {
    match pc
    case Idle => true
    case AddFlag(_) => false
    case PushLoad(_, k) => k.Retry?
    case PushNext(_, _, k) => k.Retry?
    case PushRefs(_, _, k) => k.Retry?
    case PushCas(_, _, k) => k.Retry?
    case PushUndo(_, _, k) => k.Retry?
    case _ => true
  }

  /** A block is out of the list if it does not exist yet, or the pool does not have it. */
  ghost predicate SameBlocks(out: seq<bool>, pool: seq<Queue.Memory>) {
    && |pool| <= |out|
    && forall x {:trigger out[x]} :: 0 <= x < |out| ==> (out[x] <==> x >= |pool| || !pool[x].free)
  }

  ghost predicate ConsumerAgrees(pc: List.Pc, c: Queue.Consumer) {
    Adding(pc) && (!c.Idle? ==> pc.Idle?)
  }

  ghost predicate Agree(s: State) {
    && |s.list.pcs| == Maker(s) + 1 && |s.list.out| == |s.list.nodes|
    && SameBlocks(s.list.out, Pool(s))
    && (forall t {:trigger s.list.pcs[t]} :: 0 <= t < Maker(s) ==> ConsumerAgrees(s.list.pcs[t], Consumers(s)[t]))
    && Getting(s.list.pcs[Maker(s)]) && (Asks(s) || s.list.pcs[Maker(s)].Idle?)
  }

  /** Only asking for a block and giving one back change which blocks the pool has. */
  lemma PoolKept(q: Queue.State, a: Queue.Action)
    requires Queue.Enabled(q, a) && !Queue.Fault(q, a)
    requires a.Produce? ==> !q.producer.Requesting?
    requires a.Consume? ==> !q.consumers[a.t].Freeing?
    ensures var q' := Queue.Next(q, a);
      && |q'.shared.pool| == |q.shared.pool|
      && (forall x {:trigger q'.shared.pool[x]} :: 0 <= x < |q.shared.pool| ==>
            q'.shared.pool[x].free == q.shared.pool[x].free)
      && |q'.consumers| == |q.consumers| && (q.producer.Requesting? ==> q'.producer == q.producer)
      && (forall t {:trigger q'.consumers[t]} :: 0 <= t < |q.consumers| && q.consumers[t].Idle? ==>
            q'.consumers[t].Idle? || a == Queue.Claim(t))
  {
  }

  lemma OtherAgrees(s: State, w: Whole.Step)
    requires Agree(s) && Possible(s, Other(w))
    ensures Agree(Next(s, Other(w)))
  {
    match w
    case Count(t) =>
      if Whole.Wins(s.whole, t) && Queue.Enabled(s.whole.queue, Queue.Claim(t)) {
        PoolKept(s.whole.queue, Queue.Claim(t));
      }
    case Access(a) => PoolKept(s.whole.queue, a);
  }

  /** A thread of the list stays inside the operation it called, and only the end of `try_get` hands out a block. */
  lemma StaysInside(l: List.State, t: nat)
    requires List.Enabled(l, List.Go(t))
    ensures var l' := List.Apply(l, List.Go(t));
      && |l'.pcs| == |l.pcs| && (forall u {:trigger l'.pcs[u]} :: 0 <= u < |l.pcs| && u != t ==> l'.pcs[u] == l.pcs[u])
      && |l'.out| == |l.out| && |l'.nodes| == |l.nodes|
      && (Adding(l.pcs[t]) ==> Adding(l'.pcs[t])) && (Getting(l.pcs[t]) ==> Getting(l'.pcs[t]))
      && match List.EventOf(l, List.Go(t))
         case Taken(x) => !Adding(l.pcs[t]) && l'.pcs[t].Idle? && x < |l.out| && l'.out == l.out[x := true]
         case _ => l'.out == l.out
  {
  }

  // ---------------------------------------------------------------- list and queue are ready for each other

  lemma NeverAFault(nodes: nat, threads: nat, steps: seq<Step>, a: Queue.Action)
    requires Queue.Enabled(Run(nodes, threads, steps).whole.queue, a)
    ensures !Queue.Fault(Run(nodes, threads, steps).whole.queue, a)
  {
    var inner := RunsWhole(nodes, threads, steps);
    Whole.RunsQueue(threads, inner);
    QueueRuns.RunsWithoutFault(threads, Whole.AllQueueActions(threads, inner), a);
  }

  /** What a thread of the list is about to hand out is not out. */
  lemma TakenIsNotOut(nodes: nat, threads: nat, steps: seq<Step>, t: nat)
    requires threads + 1 < List.FLAG - 1
    requires var l := Run(nodes, threads, steps).list; t < |l.pcs| && l.pcs[t].GetDrop?
    ensures var l := Run(nodes, threads, steps).list; l.pcs[t].node < |l.out| && !l.out[l.pcs[t].node]
  {
    var ss, acts := RunsList(nodes, threads, steps);
    var l, places := List.RunInv(nodes, threads + 1, ss, acts, |acts|);
    List.Known(ss[|acts|], l, places, t);
  }

  lemma TakenIsAvailable(nodes: nat, threads: nat, steps: seq<Step>, t: nat)
    requires threads + 1 < List.FLAG - 1
    requires var s := Run(nodes, threads, steps); Agree(s) && Possible(s, Go(t)) && s.list.pcs[t].GetDrop?
    ensures var s := Run(nodes, threads, steps);
      var x := s.list.pcs[t].node;
      t == Maker(s) && x < |Pool(s)| && Pool(s)[x].free && QueueReady(s, Companion(s, Go(t)))
  {
    var s := Run(nodes, threads, steps);
    TakenIsNotOut(nodes, threads, steps, t);
    assert t == Maker(s);
    NeverAFault(nodes, threads, steps, Queue.Produce(true, s.list.pcs[t].node, NOTHING));
  }

  lemma GivenBackIsOut(nodes: nat, threads: nat, steps: seq<Step>, t: nat)
    requires var s := Run(nodes, threads, steps); Agree(s) && Possible(s, GiveBack(t))
    ensures var s := Run(nodes, threads, steps);
      && List.Enabled(s.list, List.CallAdd(t, Consumers(s)[t].x))
      && Consumers(s)[t].x < |Pool(s)| && !Pool(s)[Consumers(s)[t].x].free
      && QueueReady(s, Companion(s, GiveBack(t)))
  {
    NeverAFault(nodes, threads, steps, Queue.Consume(t));
    OwnerMayAdd(Run(nodes, threads, steps), t);
  }

  lemma OwnerMayAdd(s: State, t: nat)
    requires Agree(s) && GivesBack(s, t) && Outside(s, t) && !Queue.Fault(s.whole.queue, Queue.Consume(t))
    ensures Consumers(s)[t].x < |Pool(s)| && !Pool(s)[Consumers(s)[t].x].free
    ensures List.Enabled(s.list, List.CallAdd(t, Consumers(s)[t].x))
  {
    assert s.list.out[Consumers(s)[t].x];
  }

  lemma CreatedIsNew(nodes: nat, threads: nat, steps: seq<Step>, ok: bool, content: Queue.Memory)
    requires var s := Run(nodes, threads, steps); Agree(s) && Possible(s, Create(ok, content))
    ensures var s := Run(nodes, threads, steps); QueueReady(s, Companion(s, Create(ok, content)))
  {
    NeverAFault(nodes, threads, steps, Queue.Produce(ok, |Pool(Run(nodes, threads, steps))|, content));
  }

  // ---------------------------------------------------------------- the steps that concern both

  lemma GoAgrees(s: State, t: nat)
    requires Agree(s) && Possible(s, Go(t)) && QueueReady(s, Companion(s, Go(t)))
    requires s.list.pcs[t].GetDrop? ==> t == Maker(s) && s.list.pcs[t].node < |Pool(s)|
    ensures Agree(Next(s, Go(t)))
  {
    StaysInside(s.list, t);
    var s' := Next(s, Go(t));
    assert t < Maker(s) ==> ConsumerAgrees(s.list.pcs[t], Consumers(s)[t]);
    forall u | 0 <= u < Maker(s')
      ensures ConsumerAgrees(s'.list.pcs[u], Consumers(s')[u])
    {
      assert ConsumerAgrees(s.list.pcs[u], Consumers(s)[u]);
    }
  }

  lemma GiveBackAgrees(s: State, t: nat)
    requires Agree(s) && Possible(s, GiveBack(t))
    requires List.Enabled(s.list, List.CallAdd(t, Consumers(s)[t].x)) && QueueReady(s, Companion(s, GiveBack(t)))
    ensures Agree(Next(s, GiveBack(t)))
  {
    var s' := Next(s, GiveBack(t));
    forall u | 0 <= u < Maker(s')
      ensures ConsumerAgrees(s'.list.pcs[u], Consumers(s')[u])
    {
      assert ConsumerAgrees(s.list.pcs[u], Consumers(s)[u]);
    }
  }

  lemma CreateAgrees(s: State, ok: bool, content: Queue.Memory)
    requires Agree(s) && Possible(s, Create(ok, content)) && QueueReady(s, Companion(s, Create(ok, content)))
    ensures Agree(Next(s, Create(ok, content)))
  {
    assert s.list.out[|Pool(s)|];
  }

  lemma {:induction false} RunAgrees(nodes: nat, threads: nat, steps: seq<Step>)
    requires threads + 1 < List.FLAG - 1
    ensures Agree(Run(nodes, threads, steps))
  {
    if steps != [] {
      var front, step := steps[..|steps| - 1], steps[|steps| - 1];
      RunAgrees(nodes, threads, front);
      var s := Run(nodes, threads, front);
      if Possible(s, step) {
        match step
        case Look =>
        case Create(ok, content) =>
          CreatedIsNew(nodes, threads, front, ok, content);
          CreateAgrees(s, ok, content);
        case GiveBack(t) =>
          GivenBackIsOut(nodes, threads, front, t);
          GiveBackAgrees(s, t);
        case Go(t) =>
          if s.list.pcs[t].GetDrop? { TakenIsAvailable(nodes, threads, front, t); }
          GoAgrees(s, t);
        case Other(w) => OtherAgrees(s, w);
      }
    }
  }

  // ---------------------------------------------------------------- main results

  /** In every run, list and queue are both ready for whatever step comes. */
  lemma NoStepIsLeftUndone(nodes: nat, threads: nat, steps: seq<Step>, step: Step)
    requires threads + 1 < List.FLAG - 1 && Possible(Run(nodes, threads, steps), step)
    ensures var s := Run(nodes, threads, steps); ListReady(s, ListAction(s, step)) && QueueReady(s, Companion(s, step))
  {
    var s := Run(nodes, threads, steps);
    RunAgrees(nodes, threads, steps);
    match step
    case Create(ok, content) => CreatedIsNew(nodes, threads, steps, ok, content);
    case GiveBack(t) => GivenBackIsOut(nodes, threads, steps, t);
    case Go(t) => if s.list.pcs[t].GetDrop? { TakenIsAvailable(nodes, threads, steps, t); }
    case _ =>
  }

  /** In every run, what `try_get` comes back with is a block the pool has, and the producer, who asked for one,
    * goes on with it. */
  lemma HandOutIsFree(nodes: nat, threads: nat, steps: seq<Step>, t: nat, x: nat)
    requires threads + 1 < List.FLAG - 1
    requires var s := Run(nodes, threads, steps);
      Possible(s, Go(t)) && List.EventOf(s.list, List.Go(t)) == List.Taken(x)
    ensures var s := Run(nodes, threads, steps);
      && t == Maker(s) && Asks(s) && x < |Pool(s)| && Pool(s)[x].free
      && GoesOnWith(Next(s, Go(t)), x)
  {
    RunAgrees(nodes, threads, steps);
    TakenIsAvailable(nodes, threads, steps, t);
    HandOutEffect(Run(nodes, threads, steps), t);
  }

  predicate GoesOnWith(s: State, x: nat) {
    var p := s.whole.queue.producer;
    p.Resetting? && p.x == x && x < |Pool(s)| && !Pool(s)[x].free
  }

  lemma HandOutEffect(s: State, t: nat)
    requires Possible(s, Go(t)) && Asks(s) && s.list.pcs[t].GetDrop? && s.list.pcs[t].node < |Pool(s)|
    requires QueueReady(s, Companion(s, Go(t)))
    ensures GoesOnWith(Next(s, Go(t)), s.list.pcs[t].node)
  {
  }

  /** In every run, a consumer that has emptied a block may add it: the block is out of the list and nobody
    * else's, and from then on the pool has it. */
  lemma GivenBackIsOwned(nodes: nat, threads: nat, steps: seq<Step>, t: nat)
    requires threads + 1 < List.FLAG - 1
    requires GivesBack(Run(nodes, threads, steps), t)
    ensures var s := Run(nodes, threads, steps);
      var x := Consumers(s)[t].x;
      && Possible(s, GiveBack(t)) && List.Enabled(s.list, List.CallAdd(t, x))
      && x < |Pool(s)| && !Pool(s)[x].free
      && x < |Pool(Next(s, GiveBack(t)))| && Pool(Next(s, GiveBack(t)))[x].free
  {
    var s := Run(nodes, threads, steps);
    RunAgrees(nodes, threads, steps);
    assert ConsumerAgrees(s.list.pcs[t], Consumers(s)[t]);
    GivenBackIsOut(nodes, threads, steps, t);
    GiveBackEffect(s, t);
  }

  lemma GiveBackEffect(s: State, t: nat)
    requires Possible(s, GiveBack(t)) && List.Enabled(s.list, List.CallAdd(t, Consumers(s)[t].x))
    requires QueueReady(s, Companion(s, GiveBack(t))) && Consumers(s)[t].x < |Pool(s)|
    ensures var x := Consumers(s)[t].x; x < |Pool(Next(s, GiveBack(t)))| && Pool(Next(s, GiveBack(t)))[x].free
  {
  }

  /** What a step is to the producer; of the steps inside the list only the last one concerns it. */
  function ProducerAction(step: Step): Queue.Action {
    match step
    case Create(ok, content) => Queue.Produce(ok, 0, content)
    case Other(Access(a)) => a
    case _ => Queue.Claim(0)
  }

  /** The calls of enqueue among the steps. */
  function CallsOf(nodes: nat, threads: nat, steps: seq<Step>): QueueRuns.Calls {
    if steps == [] then QueueRuns.NONE
    else
      var front, step := steps[..|steps| - 1], steps[|steps| - 1];
      var s, s' := Run(nodes, threads, front), Run(nodes, threads, steps);
      if !Possible(s, step) then CallsOf(nodes, threads, front)
      else QueueRuns.Noted(CallsOf(nodes, threads, front), s.whole.queue.producer, ProducerAction(step),
                           s.whole.counters.tail < s'.whole.counters.tail)
  }

  lemma SameTails(nodes: nat, threads: nat, steps: seq<Step>)
    ensures var s := Run(nodes, threads, steps).whole; s.counters.tail == s.queue.shared.tail
  {
    var inner := RunsWhole(nodes, threads, steps);
    Whole.RunAgrees(threads, inner);
  }

  /** Whatever is not about the pool is possible here when it is in the queue. */
  lemma EnabledIsPossible(nodes: nat, threads: nat, steps: seq<Step>, a: Queue.Action)
    requires var s := Run(nodes, threads, steps);
      Queue.Enabled(s.whole.queue, a) && !a.Claim? && !AboutPool(s, Whole.Access(a))
    ensures Possible(Run(nodes, threads, steps), Other(Whole.Access(a)))
  {
    NeverAFault(nodes, threads, steps, a);
  }

  lemma StepTold(s: State, step: Step, c: QueueRuns.Calls)
    requires QueueRuns.Told(c, s.whole.queue) && Possible(s, step)
    requires ListReady(s, ListAction(s, step)) && QueueReady(s, Companion(s, step))
    ensures var q, q' := s.whole.queue, Next(s, step).whole.queue;
      QueueRuns.Told(QueueRuns.Noted(c, q.producer, ProducerAction(step), q.shared.tail < q'.shared.tail), q')
  {
    var q := s.whole.queue;
    if Companion(s, step) != [] {
      match Companion(s, step)[0]
      case Access(a) => QueueRuns.StepTold(q, a, c);
      case Count(t) =>
        if Whole.Wins(s.whole, t) && Queue.Enabled(q, Queue.Claim(t)) { QueueRuns.StepTold(q, Queue.Claim(t), c); }
    }
  }

  lemma {:induction false} LogIsWhatWasEnqueued(nodes: nat, threads: nat, steps: seq<Step>)
    requires threads + 1 < List.FLAG - 1
    ensures QueueRuns.Told(CallsOf(nodes, threads, steps), Run(nodes, threads, steps).whole.queue)
  {
    if steps != [] {
      var front, step := steps[..|steps| - 1], steps[|steps| - 1];
      LogIsWhatWasEnqueued(nodes, threads, front);
      SameTails(nodes, threads, front);
      SameTails(nodes, threads, steps);
      var s := Run(nodes, threads, front);
      if Possible(s, step) {
        NoStepIsLeftUndone(nodes, threads, front, step);
        StepTold(s, step, CallsOf(nodes, threads, front));
      }
    }
  }

  /** With counters, free list and implicit producer interleaved access by access, the queue is a first-in
    * first-out queue. */
  lemma PooledIsFifo(nodes: nat, threads: nat, steps: seq<Step>)
    ensures var s := Run(nodes, threads, steps).whole;
      && s.counters.head <= s.counters.tail == |s.queue.shared.log|
      && (threads + 1 < List.FLAG - 1 ==> s.queue.shared.log == CallsOf(nodes, threads, steps).entered)
      && (forall i :: i in s.queue.shared.out ==>
            i < s.counters.head && s.queue.shared.out[i] == s.queue.shared.log[i])
      && ((forall c :: c in s.queue.consumers ==> c.Idle?) ==>
            forall i: nat :: i in s.queue.shared.out <==> i < s.counters.head)
  {
    var inner := RunsWhole(nodes, threads, steps);
    Whole.WholeIsFifo(threads, inner);
    if threads + 1 < List.FLAG - 1 {
      LogIsWhatWasEnqueued(nodes, threads, steps);
    }
  }

  /** With nobody under way, every block is linked in the list once, or holds the elements of one block
    * number, of which some are not dequeued yet. */
  lemma EveryBlockInOnePlace(nodes: nat, threads: nat, steps: seq<Step>) returns (linked: seq<nat>)
    requires threads + 1 < List.FLAG - 1
    requires var s := Run(nodes, threads, steps);
      && s.whole.queue.producer.Waiting? && (forall c :: c in Consumers(s) ==> c.Idle?)
      && (forall t :: 0 <= t < |s.list.pcs| ==> s.list.pcs[t].Idle?)
    ensures var s := Run(nodes, threads, steps);
      && List.Chain(s.list, linked)
      && forall x: nat {:trigger Pool(s)[x]} :: x < |Pool(s)| ==>
           if x in linked then forall b {:trigger s.whole.queue.shared.index.held[b]} ::
             0 <= b < |s.whole.queue.shared.index.held| ==> s.whole.queue.shared.index.held[b] != Here(x)
           else exists b :: QueueRuns.KeepsElements(s.whole.queue.shared, x, b)
  {
    var s := Run(nodes, threads, steps);
    RunAgrees(nodes, threads, steps);
    var ss, acts := RunsList(nodes, threads, steps);
    linked := List.QuiescentList(nodes, threads + 1, ss, acts, |acts|);
    var inner := RunsWhole(nodes, threads, steps);
    Whole.RunsQueue(threads, inner);
    forall x: nat | x < |Pool(s)|
      ensures if x in linked then forall b {:trigger s.whole.queue.shared.index.held[b]} ::
                0 <= b < |s.whole.queue.shared.index.held| ==> s.whole.queue.shared.index.held[b] != Here(x)
              else exists b :: QueueRuns.KeepsElements(s.whole.queue.shared, x, b)
    {
      QueueRuns.NoBlockIsLost(threads, Whole.AllQueueActions(threads, inner), x);
      assert x in linked <==> !s.list.out[x];
    }
  }
}

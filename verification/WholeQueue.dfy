/**
  The counters and the implicit producer together: a consumer first works through the dequeue counters, and
  the fetch_add on `headIndex` with which it wins is its claim in the queue; the producer's store of
  `tailIndex` is seen by both.  Consumers ask for one element at a time.
*/
module WholeQueue {
  import opened Sums
  import Counters = DequeueCounters
  import CounterRuns = DequeueRuns
  import Queue = ImplicitQueue
  import QueueRuns

  /** `headIndex` and `tailIndex` occur in both components. */
  datatype State = State(counters: Counters.State, queue: Queue.State)

  datatype Step =
    | Count(t: nat)                // an access of consumer t to the counters
    | Access(a: Queue.Action)      // any other access

  predicate Wins(s: State, t: nat) {
    t < |s.counters.pcs| && s.counters.pcs[t].Winning?
  }

  predicate Publishes(s: State, a: Queue.Action) {
    a.Produce? && s.queue.producer.Publishing?
  }

  /** Nothing here says that an element is left when a consumer wins. */
  predicate Possible(s: State, step: Step) {
    match step
    case Count(t) => t < |s.counters.pcs| && t < |s.queue.consumers| && s.queue.consumers[t].Idle?
    case Access(a) => !a.Claim? && Queue.Enabled(s.queue, a) && !Queue.Fault(s.queue, a)
  }

  /** A claim the queue has no element for would be left undone. */
  function Next(s: State, step: Step): State
    requires Possible(s, step)
  {
    match step
    case Count(t) =>
      State(Counters.Next(s.counters, t, 1),
            if Wins(s, t) && Queue.Enabled(s.queue, Queue.Claim(t)) then Queue.Next(s.queue, Queue.Claim(t)) else s.queue)
    case Access(a) =>
      State(if Publishes(s, a) then Counters.Apply(s.counters, Counters.Publish(1)) else s.counters,
            Queue.Next(s.queue, a))
  }

  function Run(threads: nat, steps: seq<Step>): State {
    if steps == [] then State(Counters.Init(threads), QueueRuns.Init(threads))
    else
      var s, step := Run(threads, steps[..|steps| - 1]), steps[|steps| - 1];
      if Possible(s, step) then Next(s, step) else s
  }

  // ---------------------------------------------------------------- the two runs inside

  function CounterActions(s: State, step: Step): seq<Counters.Action> {
    if !Possible(s, step) then []
    else match step
      case Count(t) => [Counters.Consume(t, 1)]
      case Access(a) => if Publishes(s, a) then [Counters.Publish(1)] else []
  }

  function QueueActions(s: State, step: Step): seq<Queue.Action> {
    if !Possible(s, step) then []
    else match step
      case Count(t) => if Wins(s, t) then [Queue.Claim(t)] else []
      case Access(a) => [a]
  }

  function AllCounterActions(threads: nat, steps: seq<Step>): seq<Counters.Action> {
    if steps == [] then []
    else
      var front := steps[..|steps| - 1];
      AllCounterActions(threads, front) + CounterActions(Run(threads, front), steps[|steps| - 1])
  }

  function AllQueueActions(threads: nat, steps: seq<Step>): seq<Queue.Action> {
    if steps == [] then []
    else
      var front := steps[..|steps| - 1];
      AllQueueActions(threads, front) + QueueActions(Run(threads, front), steps[|steps| - 1])
  }

  lemma {:induction false} RunsCounters(threads: nat, steps: seq<Step>)
    ensures var acts := AllCounterActions(threads, steps);
      && (forall a :: a in acts ==> Counters.Enabled(threads, a))
      && Run(threads, steps).counters == Counters.Run(threads, acts)
  {
    if steps != [] {
      var front, step := steps[..|steps| - 1], steps[|steps| - 1];
      RunsCounters(threads, front);
      var s, acts, more := Run(threads, front), AllCounterActions(threads, front), CounterActions(Run(threads, front), step);
      if more == [] {
        assert acts + more == acts;
      } else {
        assert (acts + more)[..|acts + more| - 1] == acts;
      }
    }
  }

  lemma {:induction false} RunsQueue(threads: nat, steps: seq<Step>)
    ensures Run(threads, steps).queue == QueueRuns.Run(threads, AllQueueActions(threads, steps))
  {
    if steps != [] {
      var front, step := steps[..|steps| - 1], steps[|steps| - 1];
      RunsQueue(threads, front);
      var s, acts := Run(threads, front), AllQueueActions(threads, front);
      var more := QueueActions(s, step);
      QueueSide(s, step);
      if more == [] {
        assert acts + more == acts;
      } else {
        QueueRunGrows(threads, acts, more[0]);
        assert acts + more == acts + [more[0]];
      }
    }
  }

  /** One action of the queue, which is left undone if it is not possible. */
  function Taken(q: Queue.State, a: Queue.Action): Queue.State {
    if Queue.Enabled(q, a) && !Queue.Fault(q, a) then Queue.Next(q, a) else q
  }

  lemma QueueRunGrows(threads: nat, acts: seq<Queue.Action>, a: Queue.Action)
    ensures QueueRuns.Run(threads, acts + [a]) == Taken(QueueRuns.Run(threads, acts), a)
  {
    assert (acts + [a])[..|acts + [a]| - 1] == acts;
  }

  lemma QueueSide(s: State, step: Step)
    ensures var q := if Possible(s, step) then Next(s, step).queue else s.queue;
      var more := QueueActions(s, step);
      |more| <= 1 && q == if more == [] then s.queue else Taken(s.queue, more[0])
  {
  }

  // ---------------------------------------------------------------- they agree

  /** The consumer asks for one element and wins one. */
  predicate Single(pc: Counters.Pc) {
    match pc
    case Idle => true
    case GotTail(max, _) => max == 1
    case GotOvercommit(max, _, _) => max == 1
    case Checked(want, _) => want == 1
    case Reserved(_, want, _) => want == 1
    case Partial(_, _) => false
    case Losing(_) => true
    case Winning(won) => won == 1
  }

  ghost predicate Agree(s: State) {
    && s.counters.head == s.queue.shared.head && s.counters.tail == s.queue.shared.tail
    && forall t {:trigger s.counters.pcs[t]} :: 0 <= t < |s.counters.pcs| ==> Single(s.counters.pcs[t])
  }

  /** A winning consumer finds an element left to claim. */
  lemma WinIsGuarded(threads: nat, steps: seq<Step>, t: nat)
    requires var s := Run(threads, steps); Agree(s) && Possible(s, Count(t)) && Wins(s, t)
    ensures Queue.Enabled(Run(threads, steps).queue, Queue.Claim(t))
  {
    var s := Run(threads, steps);
    RunsCounters(threads, steps);
    CounterRuns.HeadNeverPassesTail(threads, AllCounterActions(threads, steps));
    SumAtLeast(s.counters.pcs, t, Counters.WonBy());
  }

  lemma {:induction false} RunAgrees(threads: nat, steps: seq<Step>)
    ensures Agree(Run(threads, steps))
  {
    if steps != [] {
      var front, step := steps[..|steps| - 1], steps[|steps| - 1];
      RunAgrees(threads, front);
      var s := Run(threads, front);
      if Possible(s, step) {
        match step
        case Count(t) =>
          if Wins(s, t) { WinIsGuarded(threads, front, t); }
          CountAgrees(s, t);
        case Access(a) => AccessAgrees(s, a);
      }
    }
  }

  lemma CountAgrees(s: State, t: nat)
    requires Agree(s) && Possible(s, Count(t)) && (Wins(s, t) ==> Queue.Enabled(s.queue, Queue.Claim(t)))
    ensures Agree(Next(s, Count(t)))
  {
  }

  lemma AccessAgrees(s: State, a: Queue.Action)
    requires Agree(s) && Possible(s, Access(a))
    ensures Agree(Next(s, Access(a)))
  {
  }

  /** In every run of the whole, every consumer that wins by the counters finds an element left to claim, and
    * gets the index its fetch_add on `headIndex` returns. */
  lemma EveryWinIsAClaim(threads: nat, steps: seq<Step>, t: nat)
    requires Possible(Run(threads, steps), Count(t)) && Wins(Run(threads, steps), t)
    ensures var s := Run(threads, steps);
      && Queue.Enabled(s.queue, Queue.Claim(t))
      && Next(s, Count(t)).queue == Queue.Next(s.queue, Queue.Claim(t))
      && Next(s, Count(t)).queue.consumers[t] == Queue.Finding(s.counters.head)
  {
    RunAgrees(threads, steps);
    WinIsGuarded(threads, steps, t);
  }

  lemma NeverAFault(threads: nat, steps: seq<Step>, a: Queue.Action)
    requires Queue.Enabled(Run(threads, steps).queue, a)
    ensures !Queue.Fault(Run(threads, steps).queue, a)
  {
    RunsQueue(threads, steps);
    QueueRuns.RunsWithoutFault(threads, AllQueueActions(threads, steps), a);
  }

  /** Whatever the producer or a consumer can do in the queue it can do here. */
  lemma EnabledIsPossible(threads: nat, steps: seq<Step>, a: Queue.Action)
    requires Queue.Enabled(Run(threads, steps).queue, a) && !a.Claim?
    ensures Possible(Run(threads, steps), Access(a))
  {
    NeverAFault(threads, steps, a);
  }

  /** The calls of enqueue among the steps. */
  function CallsOf(threads: nat, steps: seq<Step>): QueueRuns.Calls {
    if steps == [] then QueueRuns.NONE
    else
      var front, step := steps[..|steps| - 1], steps[|steps| - 1];
      var s := Run(threads, front);
      QueueRuns.Noted(CallsOf(threads, front), s.queue.producer, if step.Access? then step.a else Queue.Claim(step.t),
                      s.counters.tail < Run(threads, steps).counters.tail)
  }

  lemma {:induction false} LogIsWhatWasEnqueued(threads: nat, steps: seq<Step>)
    ensures QueueRuns.Told(CallsOf(threads, steps), Run(threads, steps).queue)
  {
    if steps != [] {
      var front, step := steps[..|steps| - 1], steps[|steps| - 1];
      LogIsWhatWasEnqueued(threads, front);
      RunAgrees(threads, front);
      RunAgrees(threads, steps);
      var s, c := Run(threads, front), CallsOf(threads, front);
      if step.Access? {
        AccessTold(threads, front, step.a, c);
      } else if Possible(s, step) && Queue.Enabled(s.queue, Queue.Claim(step.t)) {
        QueueRuns.StepTold(s.queue, Queue.Claim(step.t), c);
      }
    }
  }

  lemma AccessTold(threads: nat, steps: seq<Step>, a: Queue.Action, c: QueueRuns.Calls)
    requires QueueRuns.Told(c, Run(threads, steps).queue)
    ensures var s := Run(threads, steps);
      var s' := if Possible(s, Access(a)) then Next(s, Access(a)) else s;
      QueueRuns.Told(QueueRuns.Noted(c, s.queue.producer, a, s.queue.shared.tail < s'.queue.shared.tail), s'.queue)
  {
    var s := Run(threads, steps);
    if a.Claim? {
    } else if Queue.Enabled(s.queue, a) {
      EnabledIsPossible(threads, steps, a);
      QueueRuns.StepTold(s.queue, a, c);
    } else {
      QueueRuns.NoStepTold(s.queue, a, c);
    }
  }

  /** The whole is a first-in first-out queue. */
  lemma WholeIsFifo(threads: nat, steps: seq<Step>)
    ensures var s := Run(threads, steps);
      && s.queue.shared.log == CallsOf(threads, steps).entered
      && s.counters.head == s.queue.shared.head && s.counters.tail == s.queue.shared.tail
      && s.counters.head <= s.counters.tail == |s.queue.shared.log|
      && (forall i :: i in s.queue.shared.out ==>
            i < s.counters.head && s.queue.shared.out[i] == s.queue.shared.log[i])
      && ((forall c :: c in s.queue.consumers ==> c.Idle?) ==>
            forall i: nat :: i in s.queue.shared.out <==> i < s.counters.head)
  {
    RunAgrees(threads, steps);
    RunsQueue(threads, steps);
    LogIsWhatWasEnqueued(threads, steps);
    QueueRuns.RefinesFifo(threads, AllQueueActions(threads, steps));
  }
}

/** What the chained hash guarantees over whole runs. */
module HashRuns {
  import opened ProducerHash

  lemma InitInv(hashes: seq<nat>, capacity: nat)
    requires capacity > 0
    ensures Inv(Init(hashes, capacity), History(seq(|hashes|, _ => 0), seq(|hashes|, _ => Unset), 0))
  {
  }

  /** In every state of every run the invariant holds, and whatever was returned is still owned. */
  lemma {:induction false} RunInv(hashes: seq<nat>, capacity: nat, ss: seq<State>, acts: seq<Action>, i: nat)
    returns (h: History)
    requires IsRun(hashes, capacity, ss, acts) && i < |ss|
    ensures Inv(ss[i], h)
    ensures forall k {:trigger StillOwned(ss, acts, h, k)} :: 0 <= k < i ==> StillOwned(ss, acts, h, k)
  {
    if i == 0 {
      h := History(seq(|hashes|, _ => 0), seq(|hashes|, _ => Unset), 0);
      InitInv(hashes, capacity);
    } else {
      var g := RunInv(hashes, capacity, ss, acts, i - 1);
      assert Happens(ss, acts, i - 1);
      h := StepKeepsInv(ss[i - 1], g, acts[i - 1].thread);
      forall k | 0 <= k < i
        ensures StillOwned(ss, acts, h, k)
      {
        if k < i - 1 { assert StillOwned(ss, acts, g, k); }
      }
    }
  }

  /** What step k returned, if anything, is the producer its thread owns. */
  ghost predicate StillOwned(ss: seq<State>, acts: seq<Action>, h: History, k: nat) {
    && Happens(ss, acts, k)
    && var t := acts[k].thread;
       EventOf(ss[k], t).Returned? ==> Owns(h, t) && EventOf(ss[k], t) == Returned(t, h.owned[t])
  }

  ghost predicate Owns(h: History, t: nat) {
    t < |h.owned| && h.owned[t].Producer?
  }

  // ---------------------------------------------------------------- main results

  /** A thread always gets the producer it first got; two threads never get the same one. */
  lemma ProducersArePerThread(hashes: seq<nat>, capacity: nat, ss: seq<State>, acts: seq<Action>, i: nat, j: nat)
    requires IsRun(hashes, capacity, ss, acts) && i < j < |acts|
    ensures Happens(ss, acts, i) && Happens(ss, acts, j)
    ensures var a, b := EventOf(ss[i], acts[i].thread), EventOf(ss[j], acts[j].thread);
      a.Returned? && b.Returned? ==>
        a.value.Producer? && b.value.Producer? && (a.thread == b.thread <==> a.value == b.value)
  {
    var h := RunInv(hashes, capacity, ss, acts, |acts|);
    assert StillOwned(ss, acts, h, i) && StillOwned(ss, acts, h, j);
  }

  /** In every reachable state every table of the chain has a free slot. */
  lemma EveryTableKeepsAFreeSlot(hashes: seq<nat>, capacity: nat, ss: seq<State>, acts: seq<Action>, i: nat, j: nat)
    returns (slot: nat)
    requires IsRun(hashes, capacity, ss, acts) && i < |ss| && j < |ss[i].tables|
    ensures slot < Capacity(ss[i], j) && ss[i].tables[j].keys[slot] == Free
  {
    var h := RunInv(hashes, capacity, ss, acts, i);
    assert TableInv(ss[i], h, j);
    slot := FreeSlot(ss[i].tables[j].keys, ss[i].hashes, h.tickets);
  }

  function Below(s: State, j: nat): nat
    requires j <= |s.tables|
  {
    if j == 0 then 0 else Below(s, j - 1) + Capacity(s, j - 1) + 1
  }

  ghost predicate Searching(pc: Pc) {
    pc.Probe? || pc.Found? || pc.Place? || pc.PlaceCas? || pc.PlaceValue?
  }

  /** How many more accesses a thread can make inside the probe and copy loops. */
  ghost function Budget(s: State, pc: Pc): int
    requires pc.Probe? ==> pc.main < |s.tables| && pc.table < |s.tables|
    requires pc.Found? || pc.Place? || pc.PlaceCas? ==> pc.main < |s.tables|
  {
    match pc
    case Probe(m, table, i) => Below(s, table) + Capacity(s, table) - i + 2 * Capacity(s, m) + 4
    case Found(m, _, _) => 2 * Capacity(s, m) + 3
    case Place(m, _, i) => 2 * (Capacity(s, m) - i) + 2
    case PlaceCas(m, _, i) => 2 * (Capacity(s, m) - i) + 1
    case PlaceValue(_, _, _) => 1
    case _ => 0
  }

  ghost predicate Budgeted(s: State, pc: Pc) {
    && (pc.Probe? ==> pc.main < |s.tables| && pc.table < |s.tables|)
    && (pc.Found? || pc.Place? || pc.PlaceCas? ==> pc.main < |s.tables|)
  }

  lemma CapacitiesStable(s: State, t: nat)
    requires InRange(s, t)
    ensures var s' := Next(s, t);
      && |s.tables| <= |s'.tables|
      && forall j :: 0 <= j < |s.tables| ==> Capacity(s', j) == Capacity(s, j)
  {
  }

  lemma {:induction false} BelowStable(s: State, s': State, j: nat)
    requires j <= |s.tables| <= |s'.tables|
    requires forall k :: 0 <= k < |s.tables| ==> Capacity(s', k) == Capacity(s, k)
    ensures Below(s', j) == Below(s, j)
  {
    if j > 0 {
      BelowStable(s, s', j - 1);
    }
  }

  lemma OwnBudgetFalls(s: State, h: History, t: nat)
    requires Sized(s, h) && InRange(s, t) && Searching(s.pcs[t])
    requires ThreadInv(s, h, s.pcs[t], t)
    ensures Budgeted(s, s.pcs[t]) && Budget(s, s.pcs[t]) > 0
    ensures Budgeted(Next(s, t), Next(s, t).pcs[t])
    ensures Searching(Next(s, t).pcs[t]) ==> Budget(Next(s, t), Next(s, t).pcs[t]) < Budget(s, s.pcs[t])
  {
    if s.pcs[t].Probe? {
      ProbeBudgetFalls(s, h, t);
    } else {
      CapacitiesStable(s, t);
    }
  }

  lemma ProbeBudgetFalls(s: State, h: History, t: nat)
    requires Sized(s, h) && InRange(s, t) && s.pcs[t].Probe?
    requires ThreadInv(s, h, s.pcs[t], t)
    ensures Budgeted(s, s.pcs[t]) && Budget(s, s.pcs[t]) > 0
    ensures Budgeted(Next(s, t), Next(s, t).pcs[t])
    ensures Searching(Next(s, t).pcs[t]) ==> Budget(Next(s, t), Next(s, t).pcs[t]) < Budget(s, s.pcs[t])
  {
    CapacitiesStable(s, t);
    BelowStable(s, Next(s, t), s.pcs[t].table);
    if s.pcs[t].table > 0 {
      BelowStable(s, Next(s, t), s.pcs[t].table - 1);
    }
  }

  lemma OtherBudgetKept(s: State, h: History, t: nat, u: nat)
    requires Sized(s, h) && InRange(s, u) && t < |s.pcs| && u != t && Searching(s.pcs[t])
    requires ThreadInv(s, h, s.pcs[t], t)
    ensures Budgeted(s, s.pcs[t]) && Budget(s, s.pcs[t]) > 0
    ensures var s' := Next(s, u);
      && |s'.pcs| == |s.pcs| && s'.pcs[t] == s.pcs[t]
      && Budgeted(s', s.pcs[t]) && Budget(s', s.pcs[t]) == Budget(s, s.pcs[t])
  {
    CapacitiesStable(s, u);
    if s.pcs[t].Probe? {
      BelowStable(s, Next(s, u), s.pcs[t].table);
    }
  }

  /**
    Every probe and copy loop terminates, whatever the other threads do: the budget of a searching
    thread is positive, falls with each of its own accesses until it leaves the loops, and is not
    touched by accesses of others.
  */
  lemma SearchesTerminate(hashes: seq<nat>, capacity: nat, ss: seq<State>, acts: seq<Action>, i: nat, t: nat)
    requires IsRun(hashes, capacity, ss, acts) && i < |acts|
    requires t < |ss[i].pcs| && Searching(ss[i].pcs[t])
    ensures Budgeted(ss[i], ss[i].pcs[t]) && Budget(ss[i], ss[i].pcs[t]) > 0
    ensures |ss[i + 1].pcs| == |ss[i].pcs| && Budgeted(ss[i + 1], ss[i + 1].pcs[t])
    ensures acts[i].thread != t ==> Budget(ss[i + 1], ss[i + 1].pcs[t]) == Budget(ss[i], ss[i].pcs[t])
    ensures acts[i].thread == t && Searching(ss[i + 1].pcs[t]) ==>
      Budget(ss[i + 1], ss[i + 1].pcs[t]) < Budget(ss[i], ss[i].pcs[t])
  {
    var s, u := ss[i], acts[i].thread;
    var h := RunInv(hashes, capacity, ss, acts, i);
    assert Happens(ss, acts, i);
    assert ThreadInv(s, h, s.pcs[t], t);
    assert InRange(s, t);
    if u == t {
      OwnBudgetFalls(s, h, t);
    } else {
      OtherBudgetKept(s, h, t, u);
    }
  }

  // ---------------------------------------------------------------- every call returns a producer

  ghost predicate Holds(table: Table, t: nat, v: Value) {
    exists slot :: 0 <= slot < |table.keys| == |table.values| && table.keys[slot] == Id(t) && table.values[slot] == v
  }

  /** Thread t calls at step k and is in the call until step i. */
  ghost predicate InCall(ss: seq<State>, acts: seq<Action>, k: nat, i: nat, t: nat) {
    && k < i < |ss| && |ss| == |acts| + 1 && acts[k] == Call(t)
    && forall m {:trigger Inside(ss[m], t)} :: k < m <= i ==> Inside(ss[m], t)
  }

  predicate Inside(s: State, t: nat) {
    t < |s.pcs| && !s.pcs[t].Idle?
  }

  predicate MainFrom(pc: Pc, least: int) {
    match pc
    case Idle => true
    case Start => true
    case Reload(_) => true
    case Refresh(_) => true
    case _ => pc.main >= least
  }

  lemma MainStep(s: State, h: History, t: nat, least: int)
    requires Inv(s, h) && InRange(s, t) && MainFrom(s.pcs[t], least) && least < |s.tables|
    ensures MainFrom(Next(s, t).pcs[t], least) && |s.tables| <= |Next(s, t).tables|
  {
    assert ThreadInv(s, h, s.pcs[t], t);
  }

  /** The table a thread takes for the current one is not older than its call. */
  lemma {:induction false} MainIsRecent(hashes: seq<nat>, capacity: nat, ss: seq<State>, acts: seq<Action>,
                                        k: nat, i: nat, t: nat)
    requires IsRun(hashes, capacity, ss, acts) && InCall(ss, acts, k, i, t)
    ensures Inside(ss[i], t) && |ss[k].tables| <= |ss[i].tables| && MainFrom(ss[i].pcs[t], |ss[k].tables| - 1)
    decreases i
  {
    assert Inside(ss[i], t);
    if i - 1 > k {
      InCallBefore(ss, acts, k, i, t);
      MainIsRecent(hashes, capacity, ss, acts, k, i - 1, t);
      RunKeepsMain(hashes, capacity, ss, acts, i - 1, t, |ss[k].tables| - 1);
    } else {
      CallBegins(hashes, capacity, ss, acts, k, t);
    }
  }

  lemma CallBegins(hashes: seq<nat>, capacity: nat, ss: seq<State>, acts: seq<Action>, k: nat, t: nat)
    requires IsRun(hashes, capacity, ss, acts) && k < |acts| && acts[k] == Call(t)
    ensures t < |ss[k + 1].pcs| && ss[k + 1].pcs[t] == Start && |ss[k + 1].tables| == |ss[k].tables|
  {
    assert Happens(ss, acts, k);
    CallStarts(ss[k], t);
  }

  lemma RunKeepsMain(hashes: seq<nat>, capacity: nat, ss: seq<State>, acts: seq<Action>, i: nat, t: nat, least: int)
    requires IsRun(hashes, capacity, ss, acts) && i < |acts|
    requires t < |ss[i].pcs| && MainFrom(ss[i].pcs[t], least) && least < |ss[i].tables|
    ensures t < |ss[i + 1].pcs| && MainFrom(ss[i + 1].pcs[t], least) && |ss[i].tables| <= |ss[i + 1].tables|
  {
    assert Happens(ss, acts, i);
    var h := RunInv(hashes, capacity, ss, acts, i);
    AnyStepKeepsMain(ss[i], h, acts[i].thread, t, least);
  }

  lemma CallStarts(s: State, t: nat)
    requires Enabled(s, Call(t))
    ensures Next(s, t) == At(s, t, Start)
  {
  }

  lemma InCallBefore(ss: seq<State>, acts: seq<Action>, k: nat, i: nat, t: nat)
    requires InCall(ss, acts, k, i, t) && k < i - 1
    ensures InCall(ss, acts, k, i - 1, t)
  {
  }

  lemma AnyStepKeepsMain(s: State, h: History, u: nat, t: nat, least: int)
    requires Inv(s, h) && InRange(s, u) && t < |s.pcs| && MainFrom(s.pcs[t], least) && least < |s.tables|
    ensures |Next(s, u).pcs| == |s.pcs| && MainFrom(Next(s, u).pcs[t], least) && |s.tables| <= |Next(s, u).tables|
  {
    if u == t {
      MainStep(s, h, t, least);
    } else {
      OnlyOwnStepsMove(s, u, t);
      CapacitiesStable(s, u);
    }
  }

  lemma ReturnStep(s: State, h: History, t: nat)
    requires Inv(s, h) && InRange(s, t) && !s.pcs[t].Idle? && Next(s, t).pcs[t].Idle?
    ensures EventOf(s, t) == Returned(t, h.owned[t]) && h.owned[t].Producer?
    ensures s.pcs[t].Found? || s.pcs[t].PlaceValue?
    ensures var m := s.pcs[t].main; m < |Next(s, t).tables| && Holds(Next(s, t).tables[m], t, h.owned[t])
  {
    assert ThreadInv(s, h, s.pcs[t], t);
    FoundIsOwned(s, h, t);
    if s.pcs[t].Found? { StepFound(s, h, t); }
    var m, slot := s.pcs[t].main, s.pcs[t].slot;
    var table := Next(s, t).tables[m];
    assert table.keys[slot] == Id(t) && table.values[slot] == h.owned[t];
  }

  /** Every call comes back with a producer, and then the table that was current when the call began, or a newer one,
    * has the producer under the id of the thread. */
  lemma EveryCallReturns(hashes: seq<nat>, capacity: nat, ss: seq<State>, acts: seq<Action>, k: nat, i: nat, t: nat)
    returns (m: nat)
    requires IsRun(hashes, capacity, ss, acts) && InCall(ss, acts, k, i, t)
    requires i < |acts| && t < |ss[i + 1].pcs| && ss[i + 1].pcs[t].Idle?
    ensures acts[i] == Go(t) && InRange(ss[i], t)
    ensures EventOf(ss[i], t).Returned? && EventOf(ss[i], t).thread == t && EventOf(ss[i], t).value.Producer?
    ensures |ss[k].tables| - 1 <= m < |ss[i + 1].tables| && Holds(ss[i + 1].tables[m], t, EventOf(ss[i], t).value)
  {
    var h := RunInv(hashes, capacity, ss, acts, i);
    assert Happens(ss, acts, i);
    assert Inside(ss[i], t);
    MainIsRecent(hashes, capacity, ss, acts, k, i, t);
    OnlyOwnStepsMove(ss[i], acts[i].thread, t);
    ReturnStep(ss[i], h, t);
    m := ss[i].pcs[t].main;
  }

  lemma OnlyOwnStepsMove(s: State, u: nat, t: nat)
    requires InRange(s, u) && t < |s.pcs|
    ensures u != t ==> Next(s, u).pcs[t] == s.pcs[t]
  {
  }

  // ---------------------------------------------------------------- a thread that runs alone

  /** The state after k accesses of thread t. */
  function Alone(s: State, t: nat, k: nat): State
    decreases k
  {
    if k == 0 || !InRange(s, t) then s else Alone(Next(s, t), t, k - 1)
  }

  predicate HasRoom(s: State, m: nat, ticket: nat) {
    m < |s.tables| && ticket < Limit(Capacity(s, m))
  }

  /** How far a call has come. */
  function Stage(s: State, pc: Pc): nat {
    match pc
    case Idle => 0
    case Start => 16
    case Probe(_, _, _) => 15
    case Found(_, _, _) => 15
    case Count(_) => 14
    case Unlock(m, ticket) => if HasRoom(s, m, ticket) then 6 else 13
    case Room(m, ticket) => if HasRoom(s, m, ticket) then 5 else 12
    case Refresh(_) => 11
    case Test(_, _) => 10
    case TryLock(_, _) => 9
    case Reload(_) => 8
    case Grow(_, _) => 7
    case Create(_) => 4
    case Place(_, _, _) => 3
    case PlaceCas(_, _, _) => 3
    case PlaceValue(_, _, _) => 3
  }

  ghost function Fuel(s: State, pc: Pc): nat {
    if Budgeted(s, pc) && Budget(s, pc) >= 0 then Budget(s, pc) else 0
  }

  lemma StageFalls(s: State, h: History, t: nat)
    requires Inv(s, h) && InRange(s, t) && !s.pcs[t].Idle? && !Searching(s.pcs[t])
    requires s.resizing ==> Locking(s.pcs[t])
    ensures Stage(Next(s, t), Next(s, t).pcs[t]) < Stage(s, s.pcs[t]) && !Next(s, t).pcs[t].Idle?
    ensures Next(s, t).resizing ==> Locking(Next(s, t).pcs[t])
  {
    assert ThreadInv(s, h, s.pcs[t], t);
    if Locking(s.pcs[t]) || s.pcs[t].TryLock? { ResizeFalls(s, h, t); }
  }

  lemma ResizeFalls(s: State, h: History, t: nat)
    requires Sized(s, h) && InRange(s, t) && (Locking(s.pcs[t]) || s.pcs[t].TryLock?) && ThreadInv(s, h, s.pcs[t], t)
    requires s.resizing ==> Locking(s.pcs[t])
    ensures Stage(Next(s, t), Next(s, t).pcs[t]) < Stage(s, s.pcs[t]) && !Next(s, t).pcs[t].Idle?
    ensures Next(s, t).resizing ==> Locking(Next(s, t).pcs[t])
  {
  }

  lemma SearchGoesOn(s: State, h: History, t: nat)
    requires Inv(s, h) && InRange(s, t) && Searching(s.pcs[t]) && !s.resizing
    ensures var s', pc := Next(s, t), Next(s, t).pcs[t];
      && !s'.resizing
      && (pc.Idle? || Stage(s', pc) < Stage(s, s.pcs[t]) ||
           (Stage(s', pc) == Stage(s, s.pcs[t]) && Fuel(s', pc) < Fuel(s, s.pcs[t])))
  {
    assert ThreadInv(s, h, s.pcs[t], t);
    OwnBudgetFalls(s, h, t);
    if Searching(Next(s, t).pcs[t]) {
      var g := StepKeepsInv(s, h, t);
      BudgetPositive(Next(s, t), g, t);
    }
  }

  lemma BudgetPositive(s: State, h: History, t: nat)
    requires Inv(s, h) && t < |s.pcs| && Searching(s.pcs[t])
    ensures Budgeted(s, s.pcs[t]) && Budget(s, s.pcs[t]) > 0
  {
    assert ThreadInv(s, h, s.pcs[t], t);
    var _ := StepKeepsInv(s, h, t);
    OwnBudgetFalls(s, h, t);
  }

  /** A thread in a call that runs alone, with nobody else resizing, comes to the step that returns a producer. */
  lemma {:induction false} AloneComesBack(s: State, h: History, t: nat) returns (n: nat)
    requires Inv(s, h) && t < |s.pcs| && !s.pcs[t].Idle? && (s.resizing ==> Locking(s.pcs[t]))
    ensures var r := Alone(s, t, n);
      && InRange(r, t) && !r.pcs[t].Idle? && Next(r, t).pcs[t].Idle?
      && EventOf(r, t).Returned? && EventOf(r, t).value.Producer?
    decreases Stage(s, s.pcs[t]), Fuel(s, s.pcs[t])
  {
    var g := StepKeepsInv(s, h, t);
    CallGoesOn(s, h, t);
    if Next(s, t).pcs[t].Idle? {
      ReturnStep(s, h, t);
      n := 0;
    } else {
      var m := AloneComesBack(Next(s, t), g, t);
      n := m + 1;
      AloneSplits(s, t, m);
    }
  }

  lemma AloneSplits(s: State, t: nat, k: nat)
    requires InRange(s, t)
    ensures Alone(s, t, k + 1) == Alone(Next(s, t), t, k)
  {
  }

  lemma CallGoesOn(s: State, h: History, t: nat)
    requires Inv(s, h) && InRange(s, t) && !s.pcs[t].Idle? && (s.resizing ==> Locking(s.pcs[t]))
    ensures var s', pc := Next(s, t), Next(s, t).pcs[t];
      && |s'.pcs| == |s.pcs| && (s'.resizing ==> Locking(pc))
      && (pc.Idle? || Stage(s', pc) < Stage(s, s.pcs[t]) ||
           (Stage(s', pc) == Stage(s, s.pcs[t]) && Fuel(s', pc) < Fuel(s, s.pcs[t])))
  {
    if Searching(s.pcs[t]) { SearchGoesOn(s, h, t); } else { StageFalls(s, h, t); }
  }

  lemma {:induction false} LockIsHeld(hashes: seq<nat>, capacity: nat, ss: seq<State>, acts: seq<Action>, i: nat)
    requires IsRun(hashes, capacity, ss, acts) && i < |ss|
    ensures ss[i].resizing ==> SomeLocking(ss[i])
  {
    if i > 0 {
      LockIsHeld(hashes, capacity, ss, acts, i - 1);
      assert Happens(ss, acts, i - 1);
      LockPassedOn(ss[i - 1], acts[i - 1].thread);
    }
  }

  ghost predicate SomeLocking(s: State) {
    exists u :: 0 <= u < |s.pcs| && Locking(s.pcs[u])
  }

  lemma LockPassedOn(s: State, t: nat)
    requires InRange(s, t) && (s.resizing ==> SomeLocking(s))
    ensures Next(s, t).resizing ==> SomeLocking(Next(s, t))
  {
    var s' := Next(s, t);
    if s'.resizing {
      if s.resizing {
        var u :| 0 <= u < |s.pcs| && Locking(s.pcs[u]);
        assert Locking(s'.pcs[u]);
      } else {
        assert Locking(s'.pcs[t]);
      }
    }
  }

  /** In every run, a thread that is in a call and from now on runs alone gets a producer, unless another thread was
    * stopped while it held the resize flag. */
  lemma SoloCallReturns(hashes: seq<nat>, capacity: nat, ss: seq<State>, acts: seq<Action>, i: nat, t: nat)
    returns (n: nat)
    requires IsRun(hashes, capacity, ss, acts) && i < |ss| && t < |ss[i].pcs| && !ss[i].pcs[t].Idle?
    requires forall u :: 0 <= u < |ss[i].pcs| && u != t ==> !Locking(ss[i].pcs[u])
    ensures var r := Alone(ss[i], t, n);
      && InRange(r, t) && Next(r, t).pcs[t].Idle?
      && EventOf(r, t).Returned? && EventOf(r, t).value.Producer?
  {
    var h := RunInv(hashes, capacity, ss, acts, i);
    LockIsHeld(hashes, capacity, ss, acts, i);
    n := AloneComesBack(ss[i], h, t);
  }

  // ---------------------------------------------------------------- when a table is added

  /** A table is added only when as many tickets were drawn as half the newest table has slots, and it is the least
    * doubling, at least twice as large, with that ticket below its half. */
  lemma TablesAddedWhenHalfFull(hashes: seq<nat>, capacity: nat, ss: seq<State>, acts: seq<Action>, i: nat)
    requires IsRun(hashes, capacity, ss, acts) && i < |acts| && |ss[i + 1].tables| != |ss[i].tables|
    ensures ss[i].tables != [] && |ss[i + 1].tables| == |ss[i].tables| + 1
    ensures var last, new_ := Capacity(ss[i], |ss[i].tables| - 1), Capacity(ss[i + 1], |ss[i].tables|);
      && last / 2 <= ss[i].count && new_ >= 2 * last
      && (new_ > 2 * last ==> ss[i].count >= new_ / 4)
  {
    var s, t := ss[i], acts[i].thread;
    var h := RunInv(hashes, capacity, ss, acts, i);
    assert Happens(ss, acts, i);
    assert ThreadInv(s, h, s.pcs[t], t);
  }
}

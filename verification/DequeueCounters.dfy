/**
  The four counters of a sub-queue: `tailIndex`, `headIndex`, `dequeueOptimisticCount` and
  `dequeueOvercommit`, with one producer and any number of consumers.

  Every load, store and fetch_add is one step; a consumer keeps its local variables in its program
  counter.  `dequeue` performs the same atomic accesses, on the same values, as `dequeue_bulk` with
  `max == 1`, so one set of program counters serves both.
*/
module DequeueCounters {
  import opened Sums

  datatype Pc =
    | Idle
    | GotTail(max: nat, tail: nat)
    | GotOvercommit(max: nat, tail: nat, overcommit: nat)
    | Checked(want: nat, overcommit: nat)
    | Reserved(rank: nat, want: nat, overcommit: nat)
    | Partial(lost: nat, won: nat)
    | Losing(lost: nat)
    | Winning(won: nat)

  datatype State = State(tail: nat, head: nat, optimistic: nat, overcommit: nat, pcs: seq<Pc>)

  /** What a consumer takes away: the indices first, ..., first + count - 1. */
  datatype Claim = Claim(first: nat, count: nat)

  datatype Action =
    | Publish(count: nat)              // the producer stores a larger tailIndex
    | Consume(thread: nat, max: nat)   // one step of one consumer; max is read when it starts

  function Min(a: int, b: int): int {
    if a < b then a else b
  }

  function Init(threads: nat): State {
    State(0, 0, 0, 0, seq(threads, _ => Idle))
  }

  predicate Enabled(threads: nat, a: Action) {
    a.Consume? ==> a.thread < threads && a.max > 0
  }

  /** One atomic access of consumer t. */
  function Next(s: State, t: nat, max: nat): State
    requires t < |s.pcs|
  {
    match s.pcs[t]
    case Idle => s.(pcs := s.pcs[t := GotTail(max, s.tail)])
    case GotTail(m, tail) => s.(pcs := s.pcs[t := GotOvercommit(m, tail, s.overcommit)])
    case GotOvercommit(m, tail, o) =>
      var desired := tail - (s.optimistic - o);
      s.(pcs := s.pcs[t := if desired > 0 then Checked(Min(desired, m), o) else Idle])
    case Checked(want, o) =>
      s.(optimistic := s.optimistic + want, pcs := s.pcs[t := Reserved(s.optimistic, want, o)])
    case Reserved(rank, want, o) =>
      var actual := s.tail - (rank - o);
      s.(pcs := s.pcs[t := if actual <= 0 then Losing(want)
                           else if actual < want then Partial(want - actual, actual)
                           else Winning(want)])
    case Partial(lost, won) => s.(overcommit := s.overcommit + lost, pcs := s.pcs[t := Winning(won)])
    case Losing(lost) => s.(overcommit := s.overcommit + lost, pcs := s.pcs[t := Idle])
    case Winning(won) => s.(head := s.head + won, pcs := s.pcs[t := Idle])
  }

  function Apply(s: State, a: Action): State
    requires Enabled(|s.pcs|, a)
  {
    match a
    case Publish(count) => s.(tail := s.tail + count)
    case Consume(t, max) => Next(s, t, max)
  }

  /** The claim an action makes: only the fetch_add on headIndex makes one. */
  function ClaimOf(s: State, a: Action): seq<Claim> {
    if a.Consume? && a.thread < |s.pcs| && s.pcs[a.thread].Winning?
    then [Claim(s.head, s.pcs[a.thread].won)] else []
  }

  /** The state after a run, for any number of threads and any interleaving. */
  function Run(threads: nat, actions: seq<Action>): (s: State)
    requires forall a :: a in actions ==> Enabled(threads, a)
    ensures |s.pcs| == threads
  {
    if actions == [] then Init(threads)
    else Apply(Run(threads, actions[..|actions| - 1]), actions[|actions| - 1])
  }

  function Claims(threads: nat, actions: seq<Action>): seq<Claim>
    requires forall a :: a in actions ==> Enabled(threads, a)
  {
    if actions == [] then []
    else
      var front := actions[..|actions| - 1];
      Claims(threads, front) + ClaimOf(Run(threads, front), actions[|actions| - 1])
  }

  // ---------------------------------------------------------------- ranks and their fates

  /** Every unit of `dequeueOptimisticCount` is a rank; its holder wins it or loses it. */
  datatype Fate = Pending(holder: nat) | Won | Lost

  ghost function Count(f: seq<Fate>, x: Fate): nat {
    if f == [] then 0 else Count(f[..|f| - 1], x) + if f[|f| - 1] == x then 1 else 0
  }

  lemma {:induction false} CountConcat(f: seq<Fate>, g: seq<Fate>, x: Fate)
    ensures Count(f + g, x) == Count(f, x) + Count(g, x)
  {
    if g == [] {
      assert f + g == f;
    } else {
      assert (f + g)[..|f + g| - 1] == f + g[..|g| - 1];
      CountConcat(f, g[..|g| - 1], x);
    }
  }

  lemma {:induction false} CountUniform(f: seq<Fate>, x: Fate, y: Fate)
    requires forall i :: 0 <= i < |f| ==> f[i] == y
    ensures Count(f, x) == if x == y then |f| else 0
  {
    if f != [] {
      CountUniform(f[..|f| - 1], x, y);
    }
  }

  lemma {:induction false} CountMonotone(f: seq<Fate>, g: seq<Fate>, x: Fate)
    requires |f| <= |g| && forall i :: 0 <= i < |f| && f[i] == x ==> g[i] == x
    ensures Count(f, x) <= Count(g, x)
  {
    if |f| < |g| {
      CountMonotone(f, g[..|g| - 1], x);
    } else if f != [] {
      CountMonotone(f[..|f| - 1], g[..|g| - 1], x);
    }
  }

  lemma {:induction false} CountDisjoint(f: seq<Fate>)
    ensures Count(f, Won) + Count(f, Lost) <= |f|
    ensures (forall i :: 0 <= i < |f| ==> !f[i].Pending?) ==> Count(f, Won) + Count(f, Lost) == |f|
  {
    if f != [] {
      CountDisjoint(f[..|f| - 1]);
    }
  }

  /** The ranks [from, from + won) turn Won and the next lost ones turn Lost. */
  ghost function Decide(f: seq<Fate>, from: nat, won: nat, lost: nat): (g: seq<Fate>)
    requires from + won + lost <= |f|
    ensures |g| == |f|
    ensures forall i :: 0 <= i < |f| && !(from <= i < from + won + lost) ==> g[i] == f[i]
    ensures forall i :: from <= i < from + won ==> g[i] == Won
    ensures forall i :: from + won <= i < from + won + lost ==> g[i] == Lost
  {
    f[..from] + seq(won, _ => Won) + seq(lost, _ => Lost) + f[from + won + lost..]
  }

  lemma CountDecide(f: seq<Fate>, from: nat, won: nat, lost: nat, holder: nat, x: Fate)
    requires from + won + lost <= |f|
    requires forall i :: from <= i < from + won + lost ==> f[i] == Pending(holder)
    requires x in {Won, Lost}
    ensures Count(Decide(f, from, won, lost), x) == Count(f, x) + if x == Won then won else lost
  {
    var a, m, z := f[..from], f[from..from + won + lost], f[from + won + lost..];
    var w, l := seq(won, _ => Won), seq(lost, _ => Lost);
    assert f == a + m + z;
    CountConcat(a + m, z, x);
    CountConcat(a, m, x);
    CountUniform(m, x, Pending(holder));
    CountConcat(a + w + l, z, x);
    CountConcat(a + w, l, x);
    CountConcat(a, w, x);
    CountUniform(w, x, Won);
    CountUniform(l, x, Lost);
  }

  // ---------------------------------------------------------------- the invariant

  function WonBy(): Pc -> nat {
    (pc: Pc) => match pc
      case Partial(_, won) => won
      case Winning(won) => won
      case _ => 0
  }

  function LostBy(): Pc -> nat {
    (pc: Pc) => match pc
      case Partial(lost, _) => lost
      case Losing(lost) => lost
      case _ => 0
  }

  /** What consumer t may rely on.  A stale overcommit never exceeds the losses below its ranks. */
  ghost predicate ThreadInv(pc: Pc, f: seq<Fate>, t: nat) {
    match pc
    case GotTail(max, tail) => max > 0
    case GotOvercommit(max, tail, o) => max > 0 && o <= Count(f, Lost)
    case Checked(want, o) => want > 0 && o <= Count(f, Lost)
    case Reserved(rank, want, o) =>
      && want > 0
      && rank + want <= |f|
      && o <= Count(f[..rank], Lost)
      && forall i :: rank <= i < rank + want ==> f[i] == Pending(t)
    case Partial(lost, won) => won > 0
    case Winning(won) => won > 0
    case _ => true
  }

  /** A pending rank is held by the thread it names. */
  ghost predicate PendingHeld(pcs: seq<Pc>, f: seq<Fate>) {
    forall i :: 0 <= i < |f| && f[i].Pending? ==> Holds(pcs, f[i].holder, i)
  }

  ghost predicate Holds(pcs: seq<Pc>, t: nat, rank: nat) {
    t < |pcs| && pcs[t].Reserved? && pcs[t].rank <= rank < pcs[t].rank + pcs[t].want
  }

  /** A won rank, less the losses below it, lies below the tail. */
  ghost predicate WonBelowTail(f: seq<Fate>, tail: nat) {
    forall r :: 0 <= r < |f| && f[r] == Won ==> r + 1 - Count(f[..r], Lost) <= tail
  }

  ghost predicate SumsInv(s: State, f: seq<Fate>) {
    && s.head + Sum(s.pcs, WonBy()) == Count(f, Won)
    && s.overcommit + Sum(s.pcs, LostBy()) == Count(f, Lost)
  }

  ghost predicate Inv(s: State, f: seq<Fate>) {
    && |f| == s.optimistic
    && SumsInv(s, f)
    && PendingHeld(s.pcs, f)
    && WonBelowTail(f, s.tail)
    && forall t :: 0 <= t < |s.pcs| ==> ThreadInv(s.pcs[t], f, t)
  }

  /** Counting the successes up to the highest successful rank bounds them all by the tail. */
  lemma {:induction false} WinsFitBelowTail(f: seq<Fate>, tail: nat)
    requires WonBelowTail(f, tail)
    ensures Count(f, Won) <= tail
  {
    if f != [] {
      var r := |f| - 1;
      if f[r] == Won {
        CountDisjoint(f[..r]);
        assert r + 1 - Count(f[..r], Lost) <= tail;
      } else {
        assert forall q :: 0 <= q < r ==> f[..r][..q] == f[..q];
        WinsFitBelowTail(f[..r], tail);
      }
    }
  }

  lemma InitInv(threads: nat)
    ensures Inv(Init(threads), [])
  {
    SumZero(Init(threads).pcs, WonBy());
    SumZero(Init(threads).pcs, LostBy());
  }

  /** Deciding the ranks of a reservation keeps every won rank below the tail. */
  lemma DecideKeepsWonBelowTail(f: seq<Fate>, from: nat, won: nat, lost: nat, o: nat, tail: nat, holder: nat)
    requires WonBelowTail(f, tail)
    requires from + won + lost <= |f|
    requires forall i :: from <= i < from + won + lost ==> f[i] == Pending(holder)
    requires o <= Count(f[..from], Lost)
    requires won == 0 || from - o + won <= tail
    ensures WonBelowTail(Decide(f, from, won, lost), tail)
  {
    var g := Decide(f, from, won, lost);
    forall r | 0 <= r < |g| && g[r] == Won
      ensures r + 1 - Count(g[..r], Lost) <= tail
    {
      CountMonotone(f[..r], g[..r], Lost);
      if from <= r < from + won {
        CountMonotone(f[..from], f[..r], Lost);
      } else {
        assert f[r] == Won;
      }
    }
  }

  /** The other consumers keep what they rely on when ranks only get taken and decided by t. */
  lemma OthersKeep(pc: Pc, f: seq<Fate>, g: seq<Fate>, t: nat, u: nat)
    requires u != t
    requires |f| <= |g|
    requires forall i :: 0 <= i < |f| && f[i] != Pending(t) ==> g[i] == f[i]
    requires ThreadInv(pc, f, u)
    ensures ThreadInv(pc, g, u)
  {
    CountMonotone(f, g, Lost);
    if pc.Reserved? {
      CountMonotone(f[..pc.rank], g[..pc.rank], Lost);
    }
  }

  /** How many of the reserved ranks win when the tail is reloaded. */
  ghost function Wins(pc: Pc, tail: nat): (won: nat)
    requires pc.Reserved?
    ensures won <= pc.want
  {
    var actual := tail - (pc.rank - pc.overcommit);
    if actual <= 0 then 0 else Min(pc.want, actual)
  }

  /** The fates after one step of consumer t. */
  ghost function NextFates(s: State, f: seq<Fate>, t: nat): (g: seq<Fate>)
    requires t < |s.pcs| && ThreadInv(s.pcs[t], f, t)
    ensures |f| <= |g|
    ensures forall i :: 0 <= i < |f| && f[i] != Pending(t) ==> g[i] == f[i]
  {
    var pc := s.pcs[t];
    if pc.Checked? then f + seq(pc.want, _ => Pending(t))
    else if pc.Reserved? then Decide(f, pc.rank, Wins(pc, s.tail), pc.want - Wins(pc, s.tail))
    else f
  }

  /** What one step moves: won ranks towards the head, lost ranks towards the overcommit. */
  lemma StepMovesSums(s: State, t: nat, max: nat)
    requires t < |s.pcs|
    ensures var s', pc := Next(s, t, max), s.pcs[t];
      var won := if pc.Reserved? then Wins(pc, s.tail) else 0;
      var lost := if pc.Reserved? then pc.want - won else 0;
      && s'.head + Sum(s'.pcs, WonBy()) == s.head + Sum(s.pcs, WonBy()) + won
      && s'.overcommit + Sum(s'.pcs, LostBy()) == s.overcommit + Sum(s.pcs, LostBy()) + lost
  {
    var s' := Next(s, t, max);
    SumUpdate(s.pcs, t, s'.pcs[t], WonBy());
    SumUpdate(s.pcs, t, s'.pcs[t], LostBy());
  }

  lemma FatesMoveCounts(s: State, f: seq<Fate>, t: nat)
    requires t < |s.pcs| && ThreadInv(s.pcs[t], f, t)
    ensures var g, pc := NextFates(s, f, t), s.pcs[t];
      var won := if pc.Reserved? then Wins(pc, s.tail) else 0;
      var lost := if pc.Reserved? then pc.want - won else 0;
      Count(g, Won) == Count(f, Won) + won && Count(g, Lost) == Count(f, Lost) + lost
  {
    var pc := s.pcs[t];
    if pc.Checked? {
      var p := seq(pc.want, _ => Pending(t));
      CountConcat(f, p, Won);
      CountConcat(f, p, Lost);
      CountUniform(p, Won, Pending(t));
      CountUniform(p, Lost, Pending(t));
    } else if pc.Reserved? {
      CountDecide(f, pc.rank, Wins(pc, s.tail), pc.want - Wins(pc, s.tail), t, Won);
      CountDecide(f, pc.rank, Wins(pc, s.tail), pc.want - Wins(pc, s.tail), t, Lost);
    }
  }

  /** The two conservation laws between counters, program counters and fates. */
  lemma StepKeepsSums(s: State, f: seq<Fate>, t: nat, max: nat)
    requires t < |s.pcs| && ThreadInv(s.pcs[t], f, t)
    requires SumsInv(s, f)
    ensures SumsInv(Next(s, t, max), NextFates(s, f, t))
  {
    StepMovesSums(s, t, max);
    FatesMoveCounts(s, f, t);
  }

  lemma StepKeepsWonBelowTail(s: State, f: seq<Fate>, t: nat)
    requires t < |s.pcs| && ThreadInv(s.pcs[t], f, t)
    requires WonBelowTail(f, s.tail)
    ensures WonBelowTail(NextFates(s, f, t), s.tail)
  {
    var g, pc := NextFates(s, f, t), s.pcs[t];
    if pc.Checked? {
      forall r | 0 <= r < |g| && g[r] == Won
        ensures r + 1 - Count(g[..r], Lost) <= s.tail
      {
        assert g[..r] == f[..r];
      }
    } else if pc.Reserved? {
      DecideKeepsWonBelowTail(f, pc.rank, Wins(pc, s.tail), pc.want - Wins(pc, s.tail), pc.overcommit, s.tail, t);
    }
  }

  lemma StepKeepsThread(s: State, f: seq<Fate>, t: nat, max: nat)
    requires t < |s.pcs| && max > 0 && ThreadInv(s.pcs[t], f, t)
    requires |f| == s.optimistic && s.overcommit <= Count(f, Lost)
    ensures ThreadInv(Next(s, t, max).pcs[t], NextFates(s, f, t), t)
    ensures |NextFates(s, f, t)| == Next(s, t, max).optimistic
  {
    assert s.pcs[t].Checked? ==> NextFates(s, f, t)[..|f|] == f;
  }

  lemma StepKeepsPendingHeld(s: State, f: seq<Fate>, t: nat, max: nat)
    requires t < |s.pcs| && ThreadInv(s.pcs[t], f, t)
    requires |f| == s.optimistic
    requires PendingHeld(s.pcs, f)
    ensures PendingHeld(Next(s, t, max).pcs, NextFates(s, f, t))
  {
    var g, pcs' := NextFates(s, f, t), Next(s, t, max).pcs;
    forall i | 0 <= i < |g| && g[i].Pending?
      ensures Holds(pcs', g[i].holder, i)
    {
      if i < |f| {
        assert f[i] == g[i] && Holds(s.pcs, f[i].holder, i);
      }
    }
  }

  lemma StepKeepsInv(s: State, f: seq<Fate>, t: nat, max: nat) returns (g: seq<Fate>)
    requires t < |s.pcs| && max > 0 && Inv(s, f)
    ensures Inv(Next(s, t, max), g)
  {
    assert ThreadInv(s.pcs[t], f, t);
    var s' := Next(s, t, max);
    g := NextFates(s, f, t);
    StepKeepsSums(s, f, t, max);
    StepKeepsWonBelowTail(s, f, t);
    StepKeepsPendingHeld(s, f, t, max);
    StepKeepsThread(s, f, t, max);
    forall u | 0 <= u < |s'.pcs| ensures ThreadInv(s'.pcs[u], g, u) {
      if u != t {
        OthersKeep(s.pcs[u], f, g, t, u);
      }
    }
  }
}

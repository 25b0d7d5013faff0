/** What the dequeue counters guarantee over whole runs. */
module DequeueRuns {
  import opened Sums
  import opened DequeueCounters

  /** Every reachable state satisfies the invariant, for some history of fates. */
  lemma {:induction false} RunInv(threads: nat, actions: seq<Action>) returns (f: seq<Fate>)
    requires forall a :: a in actions ==> Enabled(threads, a)
    ensures Inv(Run(threads, actions), f)
  {
    if actions == [] {
      f := [];
      InitInv(threads);
    } else {
      var a := actions[|actions| - 1];
      assert Enabled(threads, a);
      f := RunInv(threads, actions[..|actions| - 1]);
      if a.Consume? {
        f := StepKeepsInv(Run(threads, actions[..|actions| - 1]), f, a.thread, a.max);
      }
    }
  }

  // ---------------------------------------------------------------- main results

  /** No interleaving lets the head pass the tail, nor lets the claims still under way carry it there. */
  lemma HeadNeverPassesTail(threads: nat, actions: seq<Action>)
    requires forall a :: a in actions ==> Enabled(threads, a)
    ensures var s := Run(threads, actions);
      && s.head + Sum(s.pcs, WonBy()) <= s.tail
      && s.overcommit <= s.optimistic
  {
    var s := Run(threads, actions);
    var f := RunInv(threads, actions);
    WinsFitBelowTail(f, s.tail);
    CountDisjoint(f);
  }

  /** The assertion made right after the fetch_add: the overcommit a consumer read is at most its rank. */
  lemma OvercommitAtMostRank(threads: nat, actions: seq<Action>, t: nat)
    requires forall a :: a in actions ==> Enabled(threads, a)
    requires t < threads && Run(threads, actions).pcs[t].Reserved?
    ensures var pc := Run(threads, actions).pcs[t]; pc.overcommit <= pc.rank
  {
    var s := Run(threads, actions);
    var f := RunInv(threads, actions);
    assert ThreadInv(s.pcs[t], f, t);
    CountDisjoint(f[..s.pcs[t].rank]);
  }

  /** The claims of a run lie end to end, from 0 up to `headIndex`. */
  ghost predicate Tiles(cs: seq<Claim>, upTo: nat) {
    if cs == [] then upTo == 0
    else
      var c := cs[|cs| - 1];
      c.count > 0 && c.first + c.count == upTo && Tiles(cs[..|cs| - 1], c.first)
  }

  lemma {:induction false} ClaimsTile(threads: nat, actions: seq<Action>)
    requires forall a :: a in actions ==> Enabled(threads, a)
    ensures Tiles(Claims(threads, actions), Run(threads, actions).head)
  {
    if actions != [] {
      var front := actions[..|actions| - 1];
      var a := actions[|actions| - 1];
      var s := Run(threads, front);
      ClaimsTile(threads, front);
      var f := RunInv(threads, front);
      assert Enabled(threads, a);
      if a.Consume? {
        assert ThreadInv(s.pcs[a.thread], f, a.thread);
        if s.pcs[a.thread].Winning? {
          var cs := Claims(threads, front);
          var c := Claim(s.head, s.pcs[a.thread].won);
          assert (cs + [c])[..|cs + [c]| - 1] == cs;
        }
      }
      assert ClaimOf(s, a) == [] ==> Claims(threads, actions) == Claims(threads, front);
    }
  }

  ghost predicate Covers(c: Claim, i: nat) {
    c.first <= i < c.first + c.count
  }

  ghost predicate Covered(cs: seq<Claim>, i: nat) {
    exists k :: 0 <= k < |cs| && Covers(cs[k], i)
  }

  ghost predicate CoveredAtMostOnce(cs: seq<Claim>, i: nat) {
    forall j, k :: 0 <= j < k < |cs| ==> !(Covers(cs[j], i) && Covers(cs[k], i))
  }

  lemma {:induction false} TilesCoverOnce(cs: seq<Claim>, upTo: nat, i: nat)
    requires Tiles(cs, upTo)
    ensures i < upTo <==> Covered(cs, i)
    ensures CoveredAtMostOnce(cs, i)
  {
    if cs != [] {
      var last := |cs| - 1;
      TilesCoverOnce(cs[..last], cs[last].first, i);
      assert forall k :: 0 <= k < last ==> cs[..last][k] == cs[k];
      if cs[last].first <= i < upTo {
        assert Covers(cs[last], i);
      }
    }
  }

  /** In every run, every index below the head went to exactly one consumer, and was published before. */
  lemma EveryIndexToExactlyOneConsumer(threads: nat, actions: seq<Action>, i: nat)
    requires forall a :: a in actions ==> Enabled(threads, a)
    ensures i < Run(threads, actions).head <==> Covered(Claims(threads, actions), i)
    ensures CoveredAtMostOnce(Claims(threads, actions), i)
    ensures Covered(Claims(threads, actions), i) ==> i < Run(threads, actions).tail
  {
    ClaimsTile(threads, actions);
    TilesCoverOnce(Claims(threads, actions), Run(threads, actions).head, i);
    HeadNeverPassesTail(threads, actions);
  }

  /** The indices are published already when the consumer obtains them. */
  lemma ClaimAlreadyPublished(threads: nat, actions: seq<Action>, a: Action)
    requires forall b :: b in actions ==> Enabled(threads, b)
    requires Enabled(threads, a)
    ensures forall c :: c in ClaimOf(Run(threads, actions), a) ==>
              c.first + c.count <= Run(threads, actions).tail
  {
    var s := Run(threads, actions);
    HeadNeverPassesTail(threads, actions);
    if a.Consume? && s.pcs[a.thread].Winning? {
      SumAtLeast(s.pcs, a.thread, WonBy());
    }
  }

  ghost predicate Quiescent(s: State) {
    forall t :: 0 <= t < |s.pcs| ==> s.pcs[t].Idle?
  }

  /** With no consumer in flight the optimistic count exceeds the head by exactly the overcommit. */
  lemma CountersSettle(threads: nat, actions: seq<Action>)
    requires forall a :: a in actions ==> Enabled(threads, a)
    requires Quiescent(Run(threads, actions))
    ensures var s := Run(threads, actions); s.optimistic - s.overcommit == s.head
  {
    var s := Run(threads, actions);
    var f := RunInv(threads, actions);
    SumZero(s.pcs, WonBy());
    SumZero(s.pcs, LostBy());
    CountDisjoint(f);
  }

  // ---------------------------------------------------------------- nothing is lost without a cause

  /** How many of the ranks below r a consumer has reserved and not decided. */
  function Ahead(r: nat): Pc -> nat {
    (pc: Pc) => if pc.Reserved? && pc.rank < r then Min(pc.want, r - pc.rank) else 0
  }

  ghost function PendingBelow(f: seq<Fate>, r: nat): nat
    requires r <= |f|
  {
    if r == 0 then 0 else PendingBelow(f, r - 1) + if f[r - 1].Pending? then 1 else 0
  }

  lemma {:induction false} PendingIsAhead(pcs: seq<Pc>, f: seq<Fate>, r: nat)
    requires PendingHeld(pcs, f) && r <= |f|
    ensures PendingBelow(f, r) <= Sum(pcs, Ahead(r))
  {
    if r > 0 {
      PendingIsAhead(pcs, f, r - 1);
      if f[r - 1].Pending? {
        var u := f[r - 1].holder;
        assert Holds(pcs, u, r - 1);
        SumExceeds(pcs, Ahead(r - 1), Ahead(r), u);
      } else {
        SumMonotone(pcs, Ahead(r - 1), Ahead(r));
      }
    }
  }

  lemma {:induction false} FatesAddUp(f: seq<Fate>, r: nat)
    requires r <= |f|
    ensures r == Count(f[..r], Won) + Count(f[..r], Lost) + PendingBelow(f, r)
    ensures Count(f[..r], Won) <= Count(f, Won) && Count(f[..r], Lost) <= Count(f, Lost)
  {
    CountMonotone(f[..r], f, Won);
    CountMonotone(f[..r], f, Lost);
    if r > 0 {
      FatesAddUp(f, r - 1);
      assert f[..r][..r - 1] == f[..r - 1];
    }
  }

  /** What stands between the elements still to be had and rank r, for a consumer that read the overcommit as o: what
    * was given back since, what others are about to give back, and what they reserved before it and did not decide. */
  function Contended(s: State, r: nat, o: int): int {
    s.overcommit - o + Sum(s.pcs, LostBy()) + Sum(s.pcs, Ahead(r))
  }

  /** The elements nobody has won. */
  function Left(s: State): int {
    s.tail - s.head - Sum(s.pcs, WonBy())
  }

  lemma RankIsAccounted(s: State, f: seq<Fate>, r: nat, o: int)
    requires Inv(s, f) && r <= s.optimistic
    ensures r - o <= s.head + Sum(s.pcs, WonBy()) + Contended(s, r, o)
  {
    FatesAddUp(f, r);
    PendingIsAhead(s.pcs, f, r);
  }

  /** In every run, with any number of consumers in flight: a consumer that reserved ranks wins as many of them as it
    * reserved, or as there are elements nobody has won, less what is contended. It loses only to others. */
  lemma LosesOnlyToOthers(threads: nat, actions: seq<Action>, t: nat, max: nat)
    requires forall a :: a in actions ==> Enabled(threads, a)
    requires t < threads && Run(threads, actions).pcs[t].Reserved?
    ensures var s := Run(threads, actions);
      var pc, pc' := s.pcs[t], Next(s, t, max).pcs[t];
      && WonBy()(pc') + LostBy()(pc') == pc.want
      && WonBy()(pc') >= Min(pc.want, Left(s) - Contended(s, pc.rank, pc.overcommit))
  {
    var s := Run(threads, actions);
    var f := RunInv(threads, actions);
    assert ThreadInv(s.pcs[t], f, t);
    RankIsAccounted(s, f, s.pcs[t].rank, s.pcs[t].overcommit);
  }

  /** And a consumer asks for as many as it may, or as there were beyond what is won and contended; so it gives up at
    * once only if there was nothing beyond that. */
  lemma AsksForWhatIsThere(threads: nat, actions: seq<Action>, t: nat, max: nat)
    requires forall a :: a in actions ==> Enabled(threads, a)
    requires t < threads && Run(threads, actions).pcs[t].GotOvercommit?
    ensures var s := Run(threads, actions);
      var pc, pc' := s.pcs[t], Next(s, t, max).pcs[t];
      var there := pc.tail - s.head - Sum(s.pcs, WonBy()) - Contended(s, s.optimistic, pc.overcommit);
      if pc'.Checked? then pc'.want >= Min(pc.max, there) && pc'.overcommit == pc.overcommit else pc'.Idle? && there <= 0
  {
    var s := Run(threads, actions);
    var f := RunInv(threads, actions);
    RankIsAccounted(s, f, s.optimistic, s.pcs[t].overcommit);
  }

  /** Consumer t takes k steps on its own. */
  function Solo(s: State, t: nat, max: nat, k: nat): (r: State)
    requires t < |s.pcs|
    ensures |r.pcs| == |s.pcs|
    decreases k
  {
    if k == 0 then s else Solo(Next(s, t, max), t, max, k - 1)
  }

  /**
    From a settled state, a consumer that runs alone comes back in six accesses with as many elements
    as it asked for and the sub-queue has, and in three when the sub-queue is empty.
  */
  lemma SoloDequeue(threads: nat, actions: seq<Action>, t: nat, max: nat)
    requires forall a :: a in actions ==> Enabled(threads, a)
    requires t < threads && max > 0
    requires Quiescent(Run(threads, actions))
    ensures var s := Run(threads, actions);
      var take := Min(s.tail - s.head, max);
      if s.head < s.tail then
        && ClaimOf(Solo(s, t, max, 5), Consume(t, max)) == [Claim(s.head, take)]
        && Solo(s, t, max, 6) == s.(head := s.head + take, optimistic := s.optimistic + take)
      else Solo(s, t, max, 3) == s
  {
    var s := Run(threads, actions);
    CountersSettle(threads, actions);
    HeadNeverPassesTail(threads, actions);
    SoloFrom(s, t, max);
  }

  lemma SoloFrom(s: State, t: nat, max: nat)
    requires t < |s.pcs| && max > 0 && s.pcs[t].Idle?
    requires s.optimistic - s.overcommit == s.head <= s.tail
    ensures var take := Min(s.tail - s.head, max);
      if s.head < s.tail then
        && ClaimOf(Solo(s, t, max, 5), Consume(t, max)) == [Claim(s.head, take)]
        && Solo(s, t, max, 6) == s.(head := s.head + take, optimistic := s.optimistic + take)
      else Solo(s, t, max, 3) == s
  {
    var take := Min(s.tail - s.head, max);
    var s1 := Next(s, t, max);
    var s2 := Next(s1, t, max);
    var s3 := Next(s2, t, max);
    assert s2.pcs[t] == GotOvercommit(max, s.tail, s.overcommit);
    calc {
      Solo(s, t, max, 3);
      Solo(s1, t, max, 2);
      Solo(s2, t, max, 1);
      Solo(s3, t, max, 0);
      s3;
    }
    if s.head == s.tail {
      assert s3.pcs == s.pcs;
    } else {
      var s4 := Next(s3, t, max);
      var s5 := Next(s4, t, max);
      var s6 := Next(s5, t, max);
      assert s3.pcs[t] == Checked(take, s.overcommit);
      assert s4.pcs[t] == Reserved(s.optimistic, take, s.overcommit);
      assert s5.pcs[t] == Winning(take);
      assert s6.pcs == s.pcs;
      calc {
        Solo(s, t, max, 6);
        Solo(s1, t, max, 5);
        Solo(s2, t, max, 4);
        Solo(s3, t, max, 3);
        Solo(s4, t, max, 2);
        Solo(s5, t, max, 1);
        Solo(s6, t, max, 0);
        s6;
      }
      calc {
        Solo(s, t, max, 5);
        Solo(s1, t, max, 4);
        Solo(s2, t, max, 3);
        Solo(s3, t, max, 2);
        Solo(s4, t, max, 1);
        Solo(s5, t, max, 0);
        s5;
      }
    }
  }
}

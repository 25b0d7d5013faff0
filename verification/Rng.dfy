/** The random number generator of include/rng.hpp and its sampling of distinct numbers. */
module Rng {
  import opened Arith

  // ---------------------------------------------------------------- xoroshiro128+

  datatype Seeds = Seeds(s0: bv64, s1: bv64)

  /** Rotations by the two amounts in use and by their complements. */
  function Left55(x: bv64): bv64 { (x << 55) | (x >> 9) }
  function Left36(x: bv64): bv64 { (x << 36) | (x >> 28) }
  function Left28(x: bv64): bv64 { (x << 28) | (x >> 36) }
  function Left9(x: bv64): bv64 { (x << 9) | (x >> 55) }

  function Xor(x: bv64, y: bv64): bv64 { x ^ y }
  function Mix(x: bv64): bv64 { x ^ (x << 14) }

  lemma RotationsInvert(x: bv64)
    ensures Left9(Left55(x)) == x && Left55(Left9(x)) == x
    ensures Left28(Left36(x)) == x && Left36(Left28(x)) == x
  {
  }

  lemma XorCancels(x: bv64, y: bv64)
    ensures Xor(Xor(x, y), y) == x && Xor(y, Xor(x, y)) == x && Xor(Xor(y, x), y) == x
  {
  }

  function Step(s: Seeds): Seeds {
    var x := Xor(s.s1, s.s0);
    Seeds(Xor(Left55(s.s0), Mix(x)), Left36(x))
  }

  function Unstep(s: Seeds): Seeds {
    var x := Left28(s.s1);
    var s0 := Left9(Xor(s.s0, Mix(x)));
    Seeds(s0, Xor(x, s0))
  }

  /** Every state of the generator has exactly one predecessor. */
  lemma StepIsReversible(s: Seeds)
    ensures Unstep(Step(s)) == s && Step(Unstep(s)) == s
  {
    StepForth(s);
    StepBack(s);
  }

  lemma StepForth(s: Seeds)
    ensures Unstep(Step(s)) == s
  {
    var x, t := Xor(s.s1, s.s0), Step(s);
    RotationsInvert(x);
    XorCancels(Left55(s.s0), Mix(x));
    assert Xor(t.s0, Mix(x)) == Left55(s.s0);
    RotationsInvert(s.s0);
    XorCancels(s.s1, s.s0);
  }

  lemma StepBack(s: Seeds)
    ensures Step(Unstep(s)) == s
  {
    var x, t := Left28(s.s1), Unstep(s);
    XorCancels(x, t.s0);
    assert Xor(t.s1, t.s0) == x;
    RotationsInvert(s.s1);
    RotationsInvert(Xor(s.s0, Mix(x)));
    XorCancels(s.s0, Mix(x));
  }

  /** A generator that is not in the all-zero state never gets there. */
  lemma NeverAllZero(s: Seeds)
    ensures Step(s) == Seeds(0, 0) <==> s == Seeds(0, 0)
  {
    StepForth(s);
    assert Unstep(Seeds(0, 0)) == Seeds(0, 0) && Step(Seeds(0, 0)) == Seeds(0, 0);
  }

  /** The number a state yields, the state n numbers later, and n numbers of a range. */
  function Output(s: Seeds): nat { (s.s0 + s.s1) as nat }

  function After(s: Seeds, n: nat): Seeds {
    if n == 0 then s else Step(After(s, n - 1))
  }

  function Drawn(s: Seeds, lower: nat, upper: nat, n: nat): seq<nat>
    requires lower < upper
  {
    seq(n, i requires 0 <= i < n => lower + Output(After(s, i)) % (upper - lower))
  }

  /** The generator as xoroshiro128+ with the rotations 55 and 36 and the shift 14, on two states of one bit. */
  lemma OneBitSteps()
    ensures Step(Seeds(1, 0)) == Seeds(0x0080_0000_0000_4001, 0x10_0000_0000)
    ensures Step(Seeds(0, 1)) == Seeds(0x4001, 0x10_0000_0000)
    ensures Output(Seeds(0xFFFF_FFFF_FFFF_FFFF, 3)) == 2
  {
  }

  // ---------------------------------------------------------------- ranks among the numbers not excluded

  ghost predicate Ascending(xs: seq<nat>) {
    forall i, j :: 0 <= i < j < |xs| ==> xs[i] < xs[j]
  }

  ghost predicate NonDescending(xs: seq<nat>) {
    forall i, j :: 0 <= i < j < |xs| ==> xs[i] <= xs[j]
  }

  /** How many of the excluded numbers are below x. */
  function Below(excluded: seq<nat>, x: nat): nat {
    if excluded == [] then 0
    else Below(excluded[..|excluded| - 1], x) + if excluded[|excluded| - 1] < x then 1 else 0
  }

  /** x is the number of rank k, counted from 0, among the numbers that are not excluded. */
  ghost predicate HasRank(excluded: seq<nat>, k: nat, x: nat) {
    x !in excluded && x == k + Below(excluded, x)
  }

  lemma {:induction false} BelowIsPrefix(excluded: seq<nat>, x: nat, p: nat)
    requires Ascending(excluded) && p <= |excluded|
    requires forall j :: 0 <= j < p ==> excluded[j] < x
    requires p < |excluded| ==> x <= excluded[p]
    ensures Below(excluded, x) == p
  {
    if excluded != [] {
      var last := |excluded| - 1;
      if p == |excluded| {
        BelowIsPrefix(excluded[..last], x, last);
      } else {
        assert excluded[p] <= excluded[last];
        BelowIsPrefix(excluded[..last], x, p);
      }
    }
  }

  /** Moving up by n, at most n excluded numbers are passed. */
  lemma {:induction false} BelowGrows(excluded: seq<nat>, x: nat, y: nat)
    requires Ascending(excluded) && x <= y
    ensures Below(excluded, x) <= Below(excluded, y) <= Below(excluded, x) + (y - x)
    ensures x !in excluded && x < y ==> Below(excluded, y) < Below(excluded, x) + (y - x)
    decreases |excluded|, y
  {
    if x < y {
      BelowGrows(excluded, x, y - 1);
      BelowStep(excluded, y - 1);
    }
  }

  lemma {:induction false} BelowStep(excluded: seq<nat>, x: nat)
    requires Ascending(excluded)
    ensures Below(excluded, x + 1) == Below(excluded, x) + if x in excluded then 1 else 0
  {
    if excluded != [] {
      var front, last := excluded[..|excluded| - 1], excluded[|excluded| - 1];
      assert forall j :: 0 <= j < |front| ==> front[j] < last;
      BelowStep(front, x);
    }
  }

  /** Ranks go up with the numbers, so there is one number of each rank. */
  lemma RanksAscend(excluded: seq<nat>, k: nat, x: nat, l: nat, y: nat)
    requires Ascending(excluded) && HasRank(excluded, k, x) && HasRank(excluded, l, y)
    ensures k < l <==> x < y
  {
    if x < y { BelowGrows(excluded, x, y); }
    if y < x { BelowGrows(excluded, y, x); }
  }

  // ---------------------------------------------------------------- sorting

  function Insert(xs: seq<nat>, x: nat): seq<nat> {
    if xs == [] || xs[|xs| - 1] <= x then xs + [x]
    else Insert(xs[..|xs| - 1], x) + [xs[|xs| - 1]]
  }

  /** What `std::sort` makes of a vector of numbers. */
  function Sorted(xs: seq<nat>): seq<nat> {
    if xs == [] then [] else Insert(Sorted(xs[..|xs| - 1]), xs[|xs| - 1])
  }

  lemma {:induction false} InsertKeeps(xs: seq<nat>, x: nat)
    ensures multiset(Insert(xs, x)) == multiset(xs) + multiset{x}
  {
    if xs != [] && xs[|xs| - 1] > x {
      var front, last := xs[..|xs| - 1], xs[|xs| - 1];
      assert xs == front + [last];
      InsertKeeps(front, x);
    }
  }

  lemma {:induction false} InsertSorts(xs: seq<nat>, x: nat)
    requires NonDescending(xs)
    ensures NonDescending(Insert(xs, x))
  {
    if xs != [] && xs[|xs| - 1] > x {
      var front, last := xs[..|xs| - 1], xs[|xs| - 1];
      InsertSorts(front, x);
      InsertKeeps(front, x);
      var grown := Insert(front, x);
      forall i | 0 <= i < |grown|
        ensures grown[i] <= last
      {
        assert grown[i] in multiset(grown);
        assert grown[i] in front || grown[i] == x;
      }
    }
  }

  lemma {:induction false} SortedSorts(xs: seq<nat>)
    ensures NonDescending(Sorted(xs)) && multiset(Sorted(xs)) == multiset(xs) && |Sorted(xs)| == |xs|
  {
    if xs != [] {
      SortedSorts(xs[..|xs| - 1]);
      InsertSorts(Sorted(xs[..|xs| - 1]), xs[|xs| - 1]);
      InsertKeeps(Sorted(xs[..|xs| - 1]), xs[|xs| - 1]);
      assert xs == xs[..|xs| - 1] + [xs[|xs| - 1]];
      assert |multiset(Sorted(xs))| == |multiset(xs)|;
    }
  }

  // ---------------------------------------------------------------- sampling

  class Xoroshiro {
    var s0: bv64
    var s1: bv64

    constructor (s0: bv64, s1: bv64)
      ensures View() == Seeds(s0, s1)
    {
      this.s0, this.s1 := s0, s1;
    }

    function View(): Seeds
      reads this
    {
      Seeds(s0, s1)
    }

    /** The next number. */
    method Next() returns (r: nat)
      modifies this
      ensures View() == Step(old(View()))
      ensures r == Output(old(View()))
    {
      r := Output(View());
      s1 := Xor(s1, s0);
      s0 := Xor(Left55(s0), Mix(s1));
      s1 := Left36(s1);
    }

    /** The next number from lower up to, not including, upper. */
    method Between(lower: nat, upper: nat) returns (r: nat)
      requires lower < upper
      modifies this
      ensures lower <= r < upper && View() == Step(old(View()))
      ensures r == lower + Output(old(View())) % (upper - lower)
    {
      var raw := Next();
      r := raw % (upper - lower) + lower;
    }

    /** The first loop of `get_distinct`. */
    method Draw(amount: nat, lower: nat, upper: nat) returns (xs: seq<nat>)
      requires lower < upper
      modifies this
      ensures xs == Drawn(old(View()), lower, upper, amount) && View() == After(old(View()), amount)
      ensures forall i :: 0 <= i < amount ==> lower <= xs[i] < upper
    {
      xs := [];
      for i := 0 to amount
        invariant View() == After(old(View()), i) && |xs| == i
        invariant forall j :: 0 <= j < i ==> lower <= xs[j] < upper && xs[j] == Drawn(old(View()), lower, upper, amount)[j]
      {
        var x := Between(lower, upper);
        xs := xs + [x];
      }
    }

    /** `get_distinct`. When the request leaves room, the answer has distinct numbers of the range in order, that at
      * position i shifted up from draw + i. None of them is excluded if the order of the exclusions sets no snare,
      * as when they are sorted; if they are sorted and distinct, it is the number of that rank among those not
      * excluded. When the request leaves no room, the answer is the whole range, the excluded numbers with it.
      * The last number of the range is never drawn. */
    method GetDistinct(amount: nat, lower: nat, upper: nat, excluded: seq<nat>)
      returns (ans: seq<nat>, ghost draws: seq<nat>)
      modifies this
      ensures amount + lower + |excluded| < upper ==>
        && draws == Sorted(Drawn(old(View()), lower, upper - amount - |excluded|, amount))
        && View() == After(old(View()), amount) && IsSample(amount, lower, upper, excluded, draws, ans)
      ensures amount + lower + |excluded| >= upper ==>
        View() == old(View()) &&
        |ans| == (if lower < upper then upper - lower else 0) && forall i :: 0 <= i < |ans| ==> ans[i] == lower + i
    {
      ans, draws := [], [];
      if amount + lower + |excluded| >= upper {
        ans := WholeRange(lower, upper, excluded);
      } else {
        var raw := Draw(amount, lower, upper - amount - |excluded|);
        draws := Sorted(raw);
        DrawsInRange(amount, lower, upper - amount - |excluded|, raw);
        ans := SpreadOut(Sorted(raw), excluded);
        SpreadIsSample(amount, lower, upper, excluded, draws, ans);
      }
    }

    /** The second loop, on a vector of its own. */
    method SpreadOut(draws: seq<nat>, excluded: seq<nat>) returns (ans: seq<nat>)
      requires NonDescending(draws)
      ensures AreShifted(excluded, draws, ans) && AreSpread(excluded, draws, ans)
    {
      var a := new nat[|draws|](i requires 0 <= i < |draws| => draws[i]);
      assert a[..] == draws;
      Spread(a, excluded);
      ans := a[..];
    }

    method WholeRange(lower: nat, upper: nat, excluded: seq<nat>) returns (ans: seq<nat>)
      ensures |ans| == if lower < upper then upper - lower else 0
      ensures forall i :: 0 <= i < |ans| ==> ans[i] == lower + i
    {
      ans := [];
      var pos, i := 0, lower;
      while i < upper
        invariant pos <= |excluded| && lower <= i && (if lower < upper then i <= upper else i == lower)
        invariant |ans| == i - lower && forall j :: 0 <= j < |ans| ==> ans[j] == lower + j
      {
        while pos < |excluded| && excluded[pos] <= i
          invariant pos <= |excluded|
        {
          pos := pos + 1;
        }
        if !(pos < |excluded| && excluded[pos] == i) {
          ans := ans + [i];
        }
        i := i + 1;
      }
    }

    /** The shifting loop: in place, each sorted draw moves up past the exclusions and the draws before it; with
      * distinct sorted exclusions it becomes the number of its rank. */
    method Spread(a: array<nat>, excluded: seq<nat>)
      requires NonDescending(a[..])
      modifies a
      ensures AreShifted(excluded, old(a[..]), a[..]) && AreSpread(excluded, old(a[..]), a[..])
    {
      var pos := 0;
      ghost var was := a[..];
      for i := 0 to a.Length
        invariant 0 <= pos && (i < a.Length ==> pos <= Passed(excluded, was[i] + i, 0))
        invariant forall j {:trigger a[j]} :: i <= j < a.Length ==> a[j] == was[j]
        invariant forall j {:trigger a[j]} :: 0 <= j < i ==> a[j] == Shift(excluded, was[j] + j)
      {
        PassedStops(excluded, was[i] + i, 0);
        while pos < |excluded| && excluded[pos] <= a[i] + i + pos
          invariant 0 <= pos <= Passed(excluded, was[i] + i, 0)
          decreases |excluded| - pos
        {
          pos := pos + 1;
        }
        a[i] := a[i] + (i + pos);
        if i + 1 < a.Length { PassedGrows(excluded, was[i] + i, was[i + 1] + i + 1); }
      }
      ShiftedSpread(excluded, was, a[..]);
    }
  }

  // ---------------------------------------------------------------- shifting past the exclusions

  /** How many exclusions are passed on the way up from k, from position pos on. */
  function Passed(excluded: seq<nat>, k: nat, pos: nat): (p: nat)
    requires pos <= |excluded|
    ensures pos <= p <= |excluded|
    decreases |excluded| - pos
  {
    if pos < |excluded| && excluded[pos] <= k + pos then Passed(excluded, k, pos + 1) else pos
  }

  lemma {:induction false} PassedStops(excluded: seq<nat>, k: nat, pos: nat)
    requires pos <= |excluded|
    ensures var p := Passed(excluded, k, pos);
      && (forall q :: pos <= q < p ==> excluded[q] <= k + q)
      && (p < |excluded| ==> excluded[p] > k + p)
    decreases |excluded| - pos
  {
    if pos < |excluded| && excluded[pos] <= k + pos {
      PassedStops(excluded, k, pos + 1);
    }
  }

  function Shift(excluded: seq<nat>, k: nat): nat {
    k + Passed(excluded, k, 0)
  }

  /** What the loop passed for a smaller draw it also passes for a larger one. */
  lemma PassedGrows(excluded: seq<nat>, k: nat, l: nat)
    requires k <= l
    ensures Passed(excluded, k, 0) <= Passed(excluded, l, 0)
  {
    var p, q := Passed(excluded, k, 0), Passed(excluded, l, 0);
    PassedStops(excluded, k, 0);
    PassedStops(excluded, l, 0);
    assert !(q < p);
  }

  ghost predicate AreShifted(excluded: seq<nat>, draws: seq<nat>, ans: seq<nat>) {
    |ans| == |draws| && forall i {:trigger ans[i]} :: 0 <= i < |ans| ==> ans[i] == Shift(excluded, draws[i] + i)
  }

  /** Distinct numbers in order, not far above the draws; with distinct sorted exclusions the numbers of their ranks. */
  ghost predicate AreSpread(excluded: seq<nat>, draws: seq<nat>, ans: seq<nat>) {
    && |ans| == |draws| && Ascending(ans)
    && (forall i {:trigger ans[i]} :: 0 <= i < |ans| ==> draws[i] + i <= ans[i] <= draws[i] + i + |excluded|)
    && (Ascending(excluded) ==>
          forall i {:trigger ans[i]} :: 0 <= i < |ans| ==> HasRank(excluded, draws[i] + i, ans[i]))
  }

  lemma ShiftedSpread(excluded: seq<nat>, draws: seq<nat>, ans: seq<nat>)
    requires NonDescending(draws) && AreShifted(excluded, draws, ans)
    ensures AreSpread(excluded, draws, ans)
  {
    forall i, j | 0 <= i < j < |ans|
      ensures ans[i] < ans[j]
    {
      PassedGrows(excluded, draws[i] + i, draws[j] + j);
    }
    if Ascending(excluded) {
      forall i | 0 <= i < |ans|
        ensures HasRank(excluded, draws[i] + i, ans[i])
      {
        ShiftHasRank(excluded, draws[i] + i);
      }
    }
  }

  /** Past exactly the excluded numbers that come before it, a rank becomes its number. */
  lemma ShiftHasRank(excluded: seq<nat>, k: nat)
    requires Ascending(excluded)
    ensures HasRank(excluded, k, Shift(excluded, k))
  {
    var pos := Passed(excluded, k, 0);
    PassedStops(excluded, k, 0);
    forall q | 0 <= q < |excluded|
      ensures excluded[q] != k + pos
    {
      if q > pos { assert excluded[pos] < excluded[q]; }
    }
    BelowIsPrefix(excluded, k + pos, pos);
  }

  /** The exclusion at position j comes after a larger one, at position p, that stops the shift to it short. */
  ghost predicate Snare(excluded: seq<nat>, lower: nat, upper: nat, p: nat, j: nat) {
    && p < j < |excluded| && excluded[j] < excluded[p]
    && lower <= excluded[j] - p < upper - |excluded| - 1
    && forall q :: 0 <= q < p ==> excluded[q] - q <= excluded[j] - p
  }

  ghost predicate Snareless(excluded: seq<nat>, lower: nat, upper: nat) {
    forall p: nat, j: nat {:trigger Snare(excluded, lower, upper, p, j)} :: !Snare(excluded, lower, upper, p, j)
  }

  /** Sorted draws from what the request leaves of the range. */
  ghost predicate AreDraws(draws: seq<nat>, amount: nat, lower: nat, upper: nat) {
    |draws| == amount && NonDescending(draws) && forall i {:trigger draws[i]} :: 0 <= i < amount ==> lower <= draws[i] < upper
  }

  ghost predicate Avoids(excluded: seq<nat>, draws: seq<nat>) {
    forall i {:trigger draws[i]} :: 0 <= i < |draws| ==> Shift(excluded, draws[i] + i) !in excluded
  }

  lemma ShiftMeets(excluded: seq<nat>, lower: nat, upper: nat, k: nat)
    requires lower <= k < upper - |excluded| - 1
    ensures Snareless(excluded, lower, upper) ==> Shift(excluded, k) !in excluded
  {
    var p := Passed(excluded, k, 0);
    PassedStops(excluded, k, 0);
    if k + p in excluded {
      var j :| 0 <= j < |excluded| && excluded[j] == k + p;
      assert Snare(excluded, lower, upper, p, j);
    }
  }

  lemma DrawsAvoid(excluded: seq<nat>, lower: nat, upper: nat, amount: nat, draws: seq<nat>)
    requires amount + lower + |excluded| < upper && AreDraws(draws, amount, lower, upper - amount - |excluded|)
    ensures Snareless(excluded, lower, upper) ==> Avoids(excluded, draws)
    ensures NonDescending(excluded) ==> Snareless(excluded, lower, upper)
  {
    forall i | 0 <= i < amount
      ensures Snareless(excluded, lower, upper) ==> Shift(excluded, draws[i] + i) !in excluded
    {
      ShiftMeets(excluded, lower, upper, draws[i] + i);
    }
  }

  /** What `get_distinct` promises of its answer, given the sorted draws. */
  ghost predicate IsSample(amount: nat, lower: nat, upper: nat, excluded: seq<nat>, draws: seq<nat>, ans: seq<nat>) {
    && |draws| == |ans| == amount && NonDescending(draws) && Ascending(ans)
    && (forall i {:trigger draws[i]} :: 0 <= i < amount ==> lower <= draws[i] < upper - amount - |excluded|)
    && (forall i {:trigger ans[i]} :: 0 <= i < amount ==> lower <= ans[i] < upper - 1)
    && (forall i {:trigger ans[i]} :: 0 <= i < amount ==> ans[i] == Shift(excluded, draws[i] + i))
    && (Snareless(excluded, lower, upper) ==> forall i {:trigger ans[i]} :: 0 <= i < amount ==> ans[i] !in excluded)
    && (NonDescending(excluded) ==> Snareless(excluded, lower, upper))
    && (Ascending(excluded) ==>
          forall i {:trigger ans[i]} :: 0 <= i < amount ==> HasRank(excluded, draws[i] + i, ans[i]))
  }

  lemma DrawsInRange(amount: nat, lower: nat, upper: nat, raw: seq<nat>)
    requires |raw| == amount && forall i :: 0 <= i < amount ==> lower <= raw[i] < upper
    ensures AreDraws(Sorted(raw), amount, lower, upper)
  {
    SortedSorts(raw);
    SortedInRange(raw, lower, upper);
  }

  lemma SpreadIsSample(amount: nat, lower: nat, upper: nat, excluded: seq<nat>, draws: seq<nat>, ans: seq<nat>)
    requires amount + lower + |excluded| < upper && AreDraws(draws, amount, lower, upper - amount - |excluded|)
    requires AreShifted(excluded, draws, ans) && AreSpread(excluded, draws, ans)
    ensures IsSample(amount, lower, upper, excluded, draws, ans)
  {
    DrawsAvoid(excluded, lower, upper, amount, draws);
    forall i | 0 <= i < amount
      ensures lower <= ans[i] < upper - 1
    {
      assert draws[i] < upper - amount - |excluded|;
    }
  }

  /** Draws that shift to the excluded number of a snare. */
  lemma SnareCatches(excluded: seq<nat>, lower: nat, upper: nat, amount: nat, p: nat, j: nat) returns (draws: seq<nat>)
    requires amount > 0 && amount + lower + |excluded| < upper && Snare(excluded, lower, upper, p, j)
    ensures AreDraws(draws, amount, lower, upper - amount - |excluded|) && !Avoids(excluded, draws)
  {
    var k := excluded[j] - p;
    var q := Passed(excluded, k, 0);
    PassedStops(excluded, k, 0);
    assert !(q < p) && !(p < q);
    var top := upper - amount - |excluded| - 1;
    var draw, i := if k <= top then k else top, if k <= top then 0 else k - top;
    draws := seq(amount, _ => draw);
    assert draws[i] + i == k;
  }

  /** No draws lead to an excluded number if and only if the exclusions set no snare. */
  lemma NeverExcludedIff(excluded: seq<nat>, lower: nat, upper: nat, amount: nat)
    requires amount > 0 && amount + lower + |excluded| < upper
    ensures (forall draws :: AreDraws(draws, amount, lower, upper - amount - |excluded|) ==> Avoids(excluded, draws)) <==>
            Snareless(excluded, lower, upper)
  {
    forall draws | AreDraws(draws, amount, lower, upper - amount - |excluded|)
      ensures Snareless(excluded, lower, upper) ==> Avoids(excluded, draws)
    {
      DrawsAvoid(excluded, lower, upper, amount, draws);
    }
    if !Snareless(excluded, lower, upper) {
      var p: nat, j: nat :| Snare(excluded, lower, upper, p, j);
      var _ := SnareCatches(excluded, lower, upper, amount, p, j);
    }
  }

  /** With the exclusions 5 and 0, in that order, the draw 0 is the answer 0. */
  lemma UnsortedExclusionIsDrawn()
    ensures Snare([5, 0], 0, 10, 0, 1) && Shift([5, 0], 0) == 0
  {
  }

  /** One number of 0 and 1, but not 0: the answer has both. */
  method RangeWithExcluded(rng: Xoroshiro) returns (ans: seq<nat>)
    modifies rng
    ensures ans == [0, 1]
  {
    var all, _ := rng.GetDistinct(1, 0, 2, [0]);
    ans := all;
  }

  lemma SortedInRange(xs: seq<nat>, lower: nat, upper: nat)
    requires forall i :: 0 <= i < |xs| ==> lower <= xs[i] < upper
    ensures |Sorted(xs)| == |xs| && forall i :: 0 <= i < |xs| ==> lower <= Sorted(xs)[i] < upper
  {
    SortedSorts(xs);
    forall i | 0 <= i < |xs|
      ensures lower <= Sorted(xs)[i] < upper
    {
      assert Sorted(xs)[i] in multiset(Sorted(xs));
      assert Sorted(xs)[i] in xs;
    }
  }

  /** The whole range is an answer of at most `amount` numbers, none of them excluded, exactly when the range
    * is that short and nothing in it is excluded. */
  lemma WholeRangeKeepsPromiseIff(amount: nat, lower: nat, upper: nat, excluded: seq<nat>, ans: seq<nat>)
    requires |ans| == if lower < upper then upper - lower else 0
    requires forall i :: 0 <= i < |ans| ==> ans[i] == lower + i
    ensures |ans| <= amount <==> upper <= lower + amount
    ensures (forall x :: x in ans ==> x !in excluded) <==> (forall x :: x in excluded ==> x < lower || upper <= x)
  {
    forall x: nat
      ensures x in ans <==> lower <= x < upper
    {
      if lower <= x < upper { assert ans[x - lower] == x; }
    }
  }
}

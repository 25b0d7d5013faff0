/** Chord routing: protocols/chord.hpp over the ordered node table of include/hardware_manager.hpp. */
module Chord {
  import opened Arith
  import opened FiniteSets

  /** Number of binary digits. */
  function BitLength(d: nat): nat {
    if d == 0 then 0 else 1 + BitLength(d / 2)
  }

  lemma {:induction false} BitLengthBounds(d: nat)
    ensures d < Pow2(BitLength(d))
    ensures d > 0 ==> Pow2(BitLength(d) - 1) <= d
  {
    if d > 0 {
      BitLengthBounds(d / 2);
    }
  }

  lemma {:induction false} BitLengthAtMost(d: nat, n: nat)
    requires d < Pow2(n)
    ensures BitLength(d) <= n
  {
    if d > 0 {
      BitLengthAtMost(d / 2, n - 1);
    }
  }

  lemma {:induction false} Pow2Grows(m: nat, n: nat)
    requires m <= n
    ensures Pow2(m) <= Pow2(n)
  {
    if m < n {
      Pow2Grows(m, n - 1);
    }
  }

  /** What one call of `handle_message` does with the message. */
  datatype Fate =
    | Delivered
    | Forwarded(to: nat)
    | Refused   // addressed to the node itself, which `send_message` rejects by an exception
    | Dropped   // no finger chosen

  /** What becomes of a message in the end, after how many hops, and where. */
  datatype Outcome = Arrived(at: nat, hops: nat) | Lost(at: nat, hops: nat)

  datatype Ring = Ring(bits: nat, nodes: set<nat>) {

    function Size(): nat { Pow2(bits) }

    ghost predicate Valid() {
      && nodes != {}
      && forall n :: n in nodes ==> n < Size()
    }

    predicate HasBiggerId(i: nat) { exists n :: n in nodes && n >= i }

    /** `lower_bound`: the least node id that is at least `i`. */
    function NextId(i: nat): (n: nat)
      requires HasBiggerId(i)
      ensures IsLeast(nodes, i, n)
    {
      LeastExists(nodes, i);
      var n :| IsLeast(nodes, i, n);
      n
    }

    function Successor(key: nat): (n: nat)
      requires Valid()
      ensures n in nodes
    {
      NonEmpty();
      var k := Wrap(key, Size());
      if HasBiggerId(k) then NextId(k) else NextId(0)
    }

    lemma NonEmpty()
      requires Valid()
      ensures HasBiggerId(0)
    {
      var n :| n in nodes;
      assert n >= 0;
    }

    /** Clockwise distance from `me`. */
    function Distance(me: nat, other: nat): (d: int)
    {
      var o := Wrap(other, Size());
      if o >= me then o - me else Size() + o - me
    }

    lemma DistanceOnRing(me: nat, other: nat)
      requires me < Size() && other < Size()
      ensures Distance(me, other) == (if other >= me then other - me else Size() + other - me)
      ensures 0 <= Distance(me, other) < Size()
      ensures Distance(me, other) == 0 <==> me == other
    {
    }

    /** Some other node lies at least half a turn ahead. */
    ghost predicate SeesFar(me: nat) {
      exists n {:trigger IsFar(me, n)} :: n in nodes && n != me && IsFar(me, n)
    }

    ghost predicate IsFar(me: nat, n: nat) { 2 * Distance(me, n) >= Size() }

    // ------------------------------------------------------------------ one step

    predicate NotPast(me: nat, finger: nat, dst: nat) {
      Distance(me, finger) <= Distance(me, dst)
    }

    /** `send_message`, with no link failing. */
    function Send(me: nat, to: nat): Fate {
      if me == to then Refused else Forwarded(to)
    }

    /** The finger whose step is the leading binary digit of the distance to `dst`. */
    function LeadingFinger(me: nat, dst: nat): nat
      requires Valid() && me < Size() && dst < Size() && me != dst
    {
      DistanceOnRing(me, dst);
      Successor(me + Pow2(BitLength(Distance(me, dst)) - 1))
    }

    /** What becomes of a message for `key` at `me`: kept by the owner of the key, refused by a node that
      * sees nothing far, and sent along the leading digit of the distance by any other. */
    ghost function Hop(me: nat, key: nat): Fate
      requires Valid() && me in nodes
    {
      HopTowards(me, Successor(key))
    }

    ghost function HopTowards(me: nat, dst: nat): Fate
      requires Valid() && me in nodes && dst in nodes
    {
      if me == dst then Delivered
      else if !SeesFar(me) then Refused
      else Forwarded(LeadingFinger(me, dst))
    }

    /** `handle_message`. */
    method HandleMessage(me: nat, key: nat) returns (fate: Fate)
      requires Valid() && me in nodes
      ensures fate == Hop(me, key)
    {
      var dst := Successor(key);
      if me == dst { return Delivered; }
      fate := ScanFingers(me, dst);
    }

    /** The finger loop of `handle_message`. */
    method ScanFingers(me: nat, dst: nat) returns (fate: Fate)
      requires Valid() && me in nodes && dst in nodes && me != dst
      ensures fate == HopTowards(me, dst)
    {
      fate := Dropped;
      ghost var l := Digits(me, dst);
      for i := bits downto 0
        invariant if SeesFar(me) then l <= i else i == bits
      {
        FirstFitIsRight(me, dst, i, l);
        var finger := Successor(me + Pow2(i));
        if NotPast(me, finger, dst) {
          return Send(me, finger);
        }
      }
    }

    /** The first finger that does not overshoot is the right one to send to. */
    lemma FirstFitIsRight(me: nat, dst: nat, i: nat, l: nat)
      requires Valid() && me in nodes && dst in nodes && me != dst && i < bits
      requires l == BitLength(Distance(me, dst)) && 0 < l <= i + 1
      requires Pow2(l - 1) <= Distance(me, dst) < Pow2(l)
      requires SeesFar(me) || i == bits - 1
      ensures var f := Successor(me + Pow2(i));
              && (f == me <==> !SeesFar(me))
              && (NotPast(me, f, dst) <==> SeesFar(me) ==> i + 1 == l)
    {
      if SeesFar(me) {
        FingerAgainstGoal(me, dst, i + 1, l);
      } else {
        FirstFingerOfBlindNode(me, dst);
      }
    }

    /** The number of binary digits of the distance, between 1 and `bits`. */
    lemma Digits(me: nat, dst: nat) returns (l: nat)
      requires Valid() && me in nodes && dst in nodes && me != dst
      ensures l == BitLength(Distance(me, dst)) && 0 < l <= bits
      ensures Pow2(l - 1) <= Distance(me, dst) < Pow2(l)
    {
      DistanceOnRing(me, dst);
      l := BitLength(Distance(me, dst));
      BitLengthBounds(Distance(me, dst));
      BitLengthAtMost(Distance(me, dst), bits);
    }

    /** Draw i is the first that is not a key of `me`. */
    ghost predicate FirstForeign(me: nat, draws: seq<nat>, i: nat)
      requires Valid()
    {
      && i < |draws| && Successor(Wrap(draws[i], Size())) != me
      && forall j :: 0 <= j < i ==> Successor(Wrap(draws[j], Size())) == me
    }

    /** `start_message` on a stream of random draws: the first key that `me` does not own is routed. While
      * the draws are all keys of `me`, nothing is sent and the loop goes on. */
    method StartMessage(me: nat, draws: seq<nat>) returns (started: bool, key: nat, fate: Fate)
      requires Valid() && me in nodes
      ensures started <==> exists i :: 0 <= i < |draws| && Successor(Wrap(draws[i], Size())) != me
      ensures started ==> exists i: nat :: FirstForeign(me, draws, i) && key == Wrap(draws[i], Size())
      ensures started ==> Successor(key) != me && fate == Hop(me, key)
    {
      started, key, fate := false, 0, Dropped;
      var i := 0;
      while i < |draws|
        invariant i <= |draws|
        invariant forall j :: 0 <= j < i ==> Successor(Wrap(draws[j], Size())) == me
      {
        key := Wrap(draws[i], Size());
        if Successor(key) != me {
          started := true;
          assert FirstForeign(me, draws, i);
          fate := HandleMessage(me, key);
          return;
        }
        i := i + 1;
      }
    }

    /** The draws go on forever exactly on a ring of one node, which owns every key. */
    lemma OwnsAllIff(me: nat)
      requires Valid() && me in nodes
      ensures (forall key :: Successor(key) == me) <==> |nodes| == 1
    {
      if |nodes| == 1 {
        forall key
          ensures Successor(key) == me
        {
          OnlyOne(nodes, me, Successor(key));
        }
      } else {
        var n := AnotherOf(nodes, me);
        Own(n);
      }
    }

    /** A finger is the first other node at least `step` ahead, or the node itself if there is none. */
    lemma FingerIsFirst(me: nat, step: nat, n: nat)
      requires Valid() && me in nodes && n in nodes && 0 < step < Size()
      ensures var f := Successor(me + step);
              && (f != me ==> Distance(me, f) >= step)
              && (Distance(me, n) >= step ==> f != me && Distance(me, f) <= Distance(me, n))
    {
      var f, from := Successor(me + step), Wrap(me + step, Size());
      WrapOnce(me + step, Size());
      NonEmpty();
      DistanceOnRing(me, f);
      DistanceOnRing(me, n);
      DistanceOnRing(me, me);
      if HasBiggerId(from) {
        assert IsLeast(nodes, from, f);
      } else {
        assert IsLeast(nodes, 0, f);
        assert me < from && n < from;
      }
    }

    /** A finger of at most half a turn is the node itself only if the far half of the ring is empty. */
    lemma FingerOfSeer(me: nat, i: nat)
      requires Valid() && me in nodes && 0 < i <= bits
      requires SeesFar(me)
      ensures Successor(me + Pow2(i - 1)) != me
      ensures Distance(me, Successor(me + Pow2(i - 1))) >= Pow2(i - 1)
    {
      var n :| n in nodes && n != me && IsFar(me, n);
      Pow2Grows(i - 1, bits - 1);
      FingerIsFirst(me, Pow2(i - 1), n);
    }

    /** Fingers with a step above the leading bit of the distance left overshoot; the one at the
      * leading bit does not. */
    lemma FingerAgainstGoal(me: nat, dst: nat, i: nat, l: nat)
      requires Valid() && me in nodes && dst in nodes
      requires 0 < l <= i <= bits && Pow2(l - 1) <= Distance(me, dst) < Pow2(l)
      ensures var f := Successor(me + Pow2(i - 1)); SeesFar(me) ==>
              && f != me && Distance(me, f) >= Pow2(i - 1)
              && (NotPast(me, f, dst) <==> i == l)
    {
      Pow2Grows(i - 1, bits - 1);
      Pow2Grows(l, if i > l then i - 1 else l);
      if SeesFar(me) { FingerOfSeer(me, i); }
      FingerIsFirst(me, Pow2(i - 1), dst);
    }

    /** The first finger of a node that sees no other node on the far half of the ring is itself. */
    lemma FirstFingerOfBlindNode(me: nat, dst: nat)
      requires Valid() && me in nodes && dst in nodes && me != dst
      requires bits > 0
      ensures !SeesFar(me) ==> Successor(me + Pow2(bits - 1)) == me && NotPast(me, me, dst)
    {
      var f := Successor(me + Pow2(bits - 1));
      assert f != me ==> IsFar(me, f) by { FingerIsFirst(me, Pow2(bits - 1), f); }
      FingerIsFirst(me, Pow2(bits - 1), dst);
      DistanceOnRing(me, dst);
      DistanceOnRing(me, me);
    }

    lemma Ahead(me: nat, f: nat, dst: nat)
      requires me < Size() && f < Size() && dst < Size()
      requires Distance(me, f) <= Distance(me, dst)
      ensures Distance(me, f) + Distance(f, dst) == Distance(me, dst)
    {
      DistanceOnRing(me, f);
      DistanceOnRing(f, dst);
      DistanceOnRing(me, dst);
    }

    /** A forwarded message goes to another node on the way to the owner of its key, and the distance
      * left has fewer binary digits. */
    lemma HopShortens(me: nat, key: nat)
      requires Valid() && me in nodes && Hop(me, key).Forwarded?
      ensures var dst, f := Successor(key), Hop(me, key).to;
              && f in nodes && f != me
              && Distance(me, f) > 0 && 0 <= Distance(f, dst)
              && Distance(me, f) + Distance(f, dst) == Distance(me, dst)
              && BitLength(Distance(f, dst)) < BitLength(Distance(me, dst))
    {
      LeadingFingerShortens(me, Successor(key));
    }

    lemma LeadingFingerShortens(me: nat, dst: nat)
      requires Valid() && me in nodes && dst in nodes && me != dst && SeesFar(me)
      ensures var f := LeadingFinger(me, dst);
              && f in nodes && f != me
              && Distance(me, f) > 0 && 0 <= Distance(f, dst)
              && Distance(me, f) + Distance(f, dst) == Distance(me, dst)
              && BitLength(Distance(f, dst)) < BitLength(Distance(me, dst))
    {
      var l := Digits(me, dst);
      FingerAgainstGoal(me, dst, l, l);
      var f := LeadingFinger(me, dst);
      Ahead(me, f, dst);
      DistanceOnRing(f, dst);
      BitLengthAtMost(Distance(f, dst), l - 1);
    }

    /** Finger i. */
    function Finger(me: nat, i: nat): nat
      requires Valid()
    {
      Successor(me + Pow2(i))
    }

    /** A message is forwarded to a finger, the one that leads farthest without passing the owner of its key. */
    lemma ForwardedToBestFinger(me: nat, key: nat) returns (i: nat)
      requires Valid() && me in nodes && Hop(me, key).Forwarded?
      ensures i < bits && Hop(me, key).to == Finger(me, i) && NotPast(me, Finger(me, i), Successor(key))
      ensures forall j {:trigger Finger(me, j)} :: i < j < bits ==> !NotPast(me, Finger(me, j), Successor(key))
      ensures forall j {:trigger Finger(me, j)} :: 0 <= j < i ==> Distance(me, Finger(me, j)) <= Distance(me, Finger(me, i))
    {
      var dst := Successor(key);
      var l := Digits(me, dst);
      i := l - 1;
      FingerIsPastIff(me, dst, i, l);
      forall j: nat | i < j < bits
        ensures !NotPast(me, Finger(me, j), dst)
      {
        FingerIsPastIff(me, dst, j, l);
      }
      forall j: nat | j < i
        ensures Distance(me, Finger(me, j)) <= Distance(me, Finger(me, i))
      {
        SmallerFingerIsNearer(me, j, i);
      }
    }

    lemma FingerIsPastIff(me: nat, dst: nat, j: nat, l: nat)
      requires Valid() && me in nodes && dst in nodes && me != dst && SeesFar(me)
      requires 0 < l <= j + 1 <= bits && Pow2(l - 1) <= Distance(me, dst) < Pow2(l)
      ensures NotPast(me, Finger(me, j), dst) <==> j + 1 == l
    {
      FingerAgainstGoal(me, dst, j + 1, l);
    }

    lemma SmallerFingerIsNearer(me: nat, j: nat, i: nat)
      requires Valid() && me in nodes && j <= i < bits && SeesFar(me)
      ensures Distance(me, Finger(me, j)) <= Distance(me, Finger(me, i))
    {
      Pow2Grows(j, i);
      Pow2Grows(i, bits - 1);
      FingerOfSeer(me, i + 1);
      FingerIsFirst(me, Pow2(j), Finger(me, i));
    }

    /** The owner of a key is the first node from the key on, around the ring. */
    lemma SuccessorIsFirst(key: nat, n: nat)
      requires Valid() && n in nodes
      ensures Distance(Wrap(key, Size()), Successor(key)) <= Distance(Wrap(key, Size()), n)
    {
      var k, f := Wrap(key, Size()), Successor(key);
      NonEmpty();
      DistanceOnRing(k, f);
      DistanceOnRing(k, n);
      if HasBiggerId(k) {
        assert IsLeast(nodes, k, f);
      } else {
        assert IsLeast(nodes, 0, f);
      }
    }

    // ------------------------------------------------------------------ whole journeys

    /** The journey of a message for `key` that `me` handles, with no link failing. */
    ghost function Journey(me: nat, key: nat): Outcome
      requires Valid() && me in nodes
      decreases BitLength(Span(me, key))
    {
      match Hop(me, key)
      case Delivered => Arrived(me, 0)
      case Forwarded(f) =>
        HopShortens(me, key);
        var rest := Journey(f, key);
        if rest.Arrived? then Arrived(rest.at, rest.hops + 1) else Lost(rest.at, rest.hops + 1)
      case Refused => Lost(me, 0)
    }

    ghost function Span(me: nat, key: nat): nat
      requires Valid() && me in nodes
    {
      DistanceOnRing(me, Successor(key));
      Distance(me, Successor(key))
    }

    /** No journey takes more than `bits` hops; a message that arrives does so at the owner of its
      * key, and one that is lost is lost at a node that sees nothing of the far half of the ring. */
    lemma {:induction false} JourneyIsShort(me: nat, key: nat)
      requires Valid() && me in nodes
      ensures Journey(me, key).hops <= BitLength(Span(me, key)) <= bits
      ensures Journey(me, key).at in nodes
      ensures match Journey(me, key)
              case Arrived(at, _) => at == Successor(key)
              case Lost(at, _) => at != Successor(key) && !SeesFar(at)
      decreases BitLength(Span(me, key))
    {
      BitLengthAtMost(Span(me, key), bits);
      if Hop(me, key).Forwarded? {
        HopShortens(me, key);
        JourneyIsShort(Hop(me, key).to, key);
      }
    }

    ghost predicate AllArrive()
      requires Valid()
    {
      forall me, key {:trigger Journey(me, key)} :: me in nodes ==> Journey(me, key).Arrived?
    }

    ghost predicate AllSeeFar() {
      forall n {:trigger SeesFar(n)} :: n in nodes ==> SeesFar(n)
    }

    /** Every message arrives from everywhere exactly when the ring has a single node or every node
      * sees another one on the far half of the ring. */
    lemma AllArriveIff()
      requires Valid()
      ensures AllArrive() <==> |nodes| == 1 || AllSeeFar()
    {
      if |nodes| == 1 {
        forall me, key | me in nodes
          ensures Journey(me, key).Arrived?
        {
          OnlyOne(nodes, me, Successor(key));
        }
      } else if AllSeeFar() {
        forall me, key | me in nodes
          ensures Journey(me, key).Arrived?
        {
          JourneyIsShort(me, key);
        }
      } else {
        var me :| me in nodes && !SeesFar(me);
        var key := AnotherOf(nodes, me);
        Own(key);
        assert Journey(me, key).Lost?;
      }
    }

    /** A node owns its own id. */
    lemma Own(n: nat)
      requires Valid() && n in nodes
      ensures Successor(n) == n
    {
      assert HasBiggerId(n);
      assert IsLeast(nodes, n, NextId(n));
    }
  }

  predicate IsLeast(nodes: set<nat>, i: nat, n: nat) {
    n in nodes && n >= i && forall m :: m in nodes && m >= i ==> n <= m
  }

  lemma LeastExists(nodes: set<nat>, i: nat)
    requires exists n :: n in nodes && n >= i
    ensures exists n :: IsLeast(nodes, i, n)
  {
    var n :| n in nodes && n >= i;
    LeastBelow(nodes, i, n);
  }

  lemma {:induction false} LeastBelow(nodes: set<nat>, i: nat, n: nat)
    requires n in nodes && n >= i
    ensures exists m :: IsLeast(nodes, i, m)
    decreases n
  {
    if m :| m in nodes && i <= m < n {
      LeastBelow(nodes, i, m);
    } else {
      assert IsLeast(nodes, i, n);
    }
  }

  lemma OnlyOne(s: set<nat>, a: nat, b: nat)
    requires |s| == 1 && a in s && b in s
    ensures a == b
  {
    if a != b { SubsetSize({a, b}, s); }
  }

  lemma AnotherOf(s: set<nat>, a: nat) returns (b: nat)
    requires a in s && |s| != 1
    ensures b in s && b != a
  {
    assert |s - {a}| == |s| - 1;
    b := Any(s - {a});
  }

  /** Two neighbours on a ring of four: the message from 0 to 1 is refused at its source. */
  lemma LopsidedRingLosesMessages()
    ensures var ring := Ring(2, {0, 1}); ring.Valid() && ring.Journey(0, 1) == Lost(0, 0)
  {
    var ring := Ring(2, {0, 1});
    assert 0 in ring.nodes;
    assert ring.Size() == 4 by { assert Pow2(1) == 2; }
    ring.Own(1);
    assert ring.Distance(0, 1) == 1;
    assert !ring.SeesFar(0);
  }
}

/** The integer set of include/cuckoo.hpp: a raw table of buckets in which every key has two home
  * buckets, a private `insert` and a `rehash` that call each other, and public operations that
  * refine a mathematical set. The template parameters (key width, bucket size, marker of an empty
  * slot) stay arbitrary. */
module Cuckoo {
  import opened Arith
  import opened FiniteSets

  // ------------------------------------------------------------------ bits

  /** `x & y`, bit by bit. */
  function BitAnd(x: nat, y: nat): nat {
    if x == 0 || y == 0 then 0 else (x % 2) * (y % 2) + 2 * BitAnd(x / 2, y / 2)
  }

  /** `x | y`, bit by bit. */
  function BitOr(x: nat, y: nat): nat
    decreases x + y
  {
    if x == 0 then y
    else if y == 0 then x
    else (if x % 2 == 1 || y % 2 == 1 then 1 else 0) + 2 * BitOr(x / 2, y / 2)
  }

  /** A mask of `level` one bits. */
  function Ones(level: nat): nat { Pow2(level) - 1 }

  /** Masking with low ones is a remainder. */
  lemma {:induction false} MaskIsRemainder(x: nat, level: nat)
    ensures BitAnd(x, Ones(level)) == x % Pow2(level)
  {
    if x != 0 && level != 0 {
      MaskIsRemainder(x / 2, level - 1);
      var h, p := x / 2, Pow2(level - 1);
      assert Ones(level) % 2 == 1 && Ones(level) / 2 == Ones(level - 1);
      HalfRemainder(x, p);
    }
  }

  lemma HalfRemainder(x: nat, p: nat)
    requires p >= 1
    ensures x % (2 * p) == x % 2 + 2 * ((x / 2) % p)
  {
    var q, r := (x / 2) / p, (x / 2) % p;
    assert x / 2 == q * p + r;
    assert x == q * (2 * p) + (x % 2 + 2 * r) by {
      assert q * (2 * p) == 2 * (q * p);
    }
    ModUnique(x, q, x % 2 + 2 * r, 2 * p);
  }

  /** The complement of a number in a wider all-ones word, masked. */
  lemma MirrorRemainder(k: nat, c: nat, m: nat)
    requires c >= 1 && k < c * m
    ensures (c * m - 1 - k) % c == c - 1 - k % c
  {
    var q, r := k / c, k % c;
    assert k == q * c + r;
    assert c * m - 1 - k == (m - 1 - q) * c + (c - 1 - r) by {
      assert (m - 1 - q) * c == c * m - c - q * c;
    }
    ModUnique(c * m - 1 - k, m - 1 - q, c - 1 - r, c);
  }

  /** `(mask << 1) | mask` adds one more low one bit. */
  lemma {:induction false} WidenMask(level: nat)
    requires level > 0
    ensures BitOr(2 * Ones(level), Ones(level)) == Ones(level + 1)
  {
    OnesOr(level);
    assert Ones(level) / 2 == Ones(level - 1);
  }

  lemma {:induction false} OnesOr(level: nat)
    requires level > 0
    ensures BitOr(Ones(level), Ones(level - 1)) == Ones(level)
  {
    if level > 1 {
      OnesOr(level - 1);
      assert Ones(level) / 2 == Ones(level - 1) && Ones(level - 1) / 2 == Ones(level - 2);
    }
  }

  // ------------------------------------------------------------------ table

  /** The template parameters: bits of a key, slots of a bucket, marker of an empty slot. */
  datatype Shape = Shape(bits: nat, slots: nat, missing: nat) {

    predicate IsKey(k: nat) { k < Pow2(bits) && k != missing }

    function Hash1(k: nat, mask: nat): nat { BitAnd(k, mask) }

    /** `~k & mask`, the complement taken within the width of a key. */
    function Hash2(k: nat, mask: nat): nat
      requires k < Pow2(bits)
    {
      BitAnd(Pow2(bits) - 1 - k, mask)
    }

    /** Where bucket `h` begins: `h * slots`, by repeated addition so that proofs stay linear. */
    function Start(h: nat): nat {
      if h == 0 then 0 else Start(h - 1) + slots
    }

    lemma {:induction false} StartIsProduct(h: nat)
      ensures Start(h) == h * slots
    {
      if h > 0 {
        StartIsProduct(h - 1);
      }
    }

    predicate InBucket(i: int, h: nat) { Start(h) <= i < Start(h) + slots }

    /** Slot `i` belongs to one of the home buckets of `k`. */
    predicate AtHome(i: int, k: nat, mask: nat)
      requires k < Pow2(bits)
    {
      InBucket(i, Hash1(k, mask)) || InBucket(i, Hash2(k, mask))
    }

    /** The keys of a table. */
    function Keys(t: seq<nat>): set<nat> { set k | k in t && k != missing }

    /** The table of a given level: every key sits in a home bucket, none twice. */
    ghost predicate Good(t: seq<nat>, level: nat) {
      && slots >= 1
      && level <= bits
      && |t| == Start(Pow2(level))
      && (forall i {:trigger t[i]} :: 0 <= i < |t| && t[i] != missing ==>
            t[i] < Pow2(bits) && AtHome(i, t[i], Ones(level)))
      && NoRepeats(t)
    }

    ghost predicate NoRepeats(t: seq<nat>) {
      forall i, j :: 0 <= i < j < |t| && t[i] == t[j] ==> t[i] == missing
    }

    ghost predicate BucketFull(t: seq<nat>, h: nat) {
      forall i {:trigger t[i]} :: 0 <= i < |t| && InBucket(i, h) ==> t[i] != missing
    }

    /** No slot of the two home buckets of `k` is empty. */
    ghost predicate PairFull(t: seq<nat>, k: nat, mask: nat)
      requires k < Pow2(bits)
    {
      forall i {:trigger t[i]} :: 0 <= i < |t| && AtHome(i, k, mask) ==> t[i] != missing
    }

    // ------------------------------------------------------------------ buckets

    /** The second hash is the mirror image of the first, so buckets come in isolated pairs. */
    lemma HashesMirror(k: nat, level: nat)
      requires k < Pow2(bits) && level <= bits
      ensures 0 <= Hash1(k, Ones(level)) <= Ones(level)
      ensures Hash2(k, Ones(level)) == Ones(level) - Hash1(k, Ones(level))
      ensures level > 0 ==> Hash1(k, Ones(level)) != Hash2(k, Ones(level))
    {
      MaskIsRemainder(k, level);
      MaskIsRemainder(Pow2(bits) - 1 - k, level);
      Pow2Splits(level, bits - level);
      MirrorRemainder(k, Pow2(level), Pow2(bits - level));
      assert level > 0 ==> Ones(level) == 2 * Pow2(level - 1) - 1;
    }

    lemma {:induction false} BucketsApart(h: nat, g: nat)
      requires h < g
      ensures Start(h) + slots <= Start(g)
      decreases g
    {
      if h < g - 1 {
        BucketsApart(h, g - 1);
      }
    }

    lemma BucketInTable(k: nat, level: nat)
      requires slots >= 1 && k < Pow2(bits) && level <= bits
      ensures var mask := Ones(level);
              && 0 <= Start(Hash1(k, mask)) && Start(Hash1(k, mask)) + slots <= Start(Pow2(level))
              && 0 <= Start(Hash2(k, mask)) && Start(Hash2(k, mask)) + slots <= Start(Pow2(level))
    {
      HashesMirror(k, level);
      BucketsApart(Hash1(k, Ones(level)), Pow2(level));
      BucketsApart(Hash2(k, Ones(level)), Pow2(level));
    }

    lemma SameBucket(i: int, h: nat, g: nat)
      requires InBucket(i, h) && InBucket(i, g)
      ensures h == g
    {
      if h < g { BucketsApart(h, g); }
      if g < h { BucketsApart(g, h); }
    }

    /** Two keys that share a home bucket share both. */
    lemma HomesShared(i: int, x: nat, k: nat, level: nat)
      requires x < Pow2(bits) && k < Pow2(bits) && level <= bits
      requires AtHome(i, x, Ones(level)) && AtHome(i, k, Ones(level))
      ensures SamePair(x, k, level)
      ensures forall j :: AtHome(j, x, Ones(level)) == AtHome(j, k, Ones(level))
    {
      var mask := Ones(level);
      HashesMirror(x, level);
      HashesMirror(k, level);
      var h := if InBucket(i, Hash1(x, mask)) then Hash1(x, mask) else Hash2(x, mask);
      var g := if InBucket(i, Hash1(k, mask)) then Hash1(k, mask) else Hash2(k, mask);
      SameBucket(i, h, g);
    }

    // ------------------------------------------------------------------ writes

    lemma EmptyIsGood(t: seq<nat>, level: nat)
      requires slots >= 1 && level <= bits && |t| == Start(Pow2(level))
      requires forall i :: 0 <= i < |t| ==> t[i] == missing
      ensures Good(t, level) && Keys(t) == {}
    {
    }

    /** Filling an empty home slot adds the key. */
    lemma Filled(t: seq<nat>, level: nat, i: nat, k: nat)
      requires Good(t, level) && IsKey(k) && k !in t
      requires i < |t| && t[i] == missing && AtHome(i, k, Ones(level))
      ensures Good(t[i := k], level)
      ensures Keys(t[i := k]) == Keys(t) + {k}
    {
      var u := t[i := k];
      forall x
        ensures x in Keys(u) <==> x in Keys(t) + {k}
      {
        if x in Keys(t) {
          var j :| 0 <= j < |t| && t[j] == x;
          assert u[j] == x;
        }
        assert u[i] == k;
      }
    }

    /** Walking a table of distinct keys meets each key once. */
    lemma NextSlot(t: seq<nat>, i: nat)
      requires NoRepeats(t) && i < |t|
      ensures Keys(t[..i + 1]) == Keys(t[..i]) + (if t[i] == missing then {} else {t[i]})
      ensures t[i] != missing ==> t[i] !in Keys(t[..i])
      ensures Keys(t[..i + 1]) <= Keys(t)
    {
      assert t[..i + 1] == t[..i] + [t[i]];
    }

    /** The walk lists one key more and passes over the empty slots behind it. */
    lemma WalkOn(t: seq<nat>, i: nat, xs: seq<nat>)
      requires NoRepeats(t) && i < |t| && t[i] != missing && Lists(xs, Keys(t[..i]))
      ensures NextLive(t, i + 1) <= |t| && Lists(xs + [t[i]], Keys(t[..NextLive(t, i + 1)]))
    {
      NextSlot(t, i);
      ListsMore(xs, Keys(t[..i]), t[i]);
      SkipEmpty(t, i + 1);
    }

    /** A key that is in no slot of its home buckets is not in the table. */
    lemma NotAtHome(t: seq<nat>, level: nat, k: nat)
      requires Good(t, level) && IsKey(k)
      requires forall i {:trigger t[i]} :: 0 <= i < |t| && AtHome(i, k, Ones(level)) ==> t[i] != k
      ensures k !in t
    {
    }

    /** Emptying the slot of a key removes it. */
    lemma Emptied(t: seq<nat>, level: nat, i: nat)
      requires Good(t, level) && i < |t| && t[i] != missing
      ensures Good(t[i := missing], level)
      ensures Keys(t[i := missing]) == Keys(t) - {t[i]}
    {
      var u := t[i := missing];
      forall x
        ensures x in Keys(u) <==> x in Keys(t) - {t[i]}
      {
        if x in Keys(t) - {t[i]} {
          var j :| 0 <= j < |t| && t[j] == x;
          assert u[j] == x;
        }
      }
    }

    /** A full bucket from which the first key is pushed out and `k` appended. */
    function Pushed(t: seq<nat>, s: nat, k: nat): seq<nat>
      requires slots >= 1 && s + slots <= |t|
    {
      t[..s] + t[s + 1..s + slots] + [k] + t[s + slots..]
    }

    lemma PushedAt(t: seq<nat>, s: nat, k: nat)
      requires slots >= 1 && s + slots <= |t|
      ensures |Pushed(t, s, k)| == |t|
      ensures forall i :: s <= i < s + slots - 1 ==> Pushed(t, s, k)[i] == t[i + 1]
      ensures Pushed(t, s, k)[s + slots - 1] == k
      ensures forall i :: 0 <= i < s || s + slots <= i < |t| ==> Pushed(t, s, k)[i] == t[i]
    {
    }

    /** Pushing out of a bucket trades the first key for `k`. */
    lemma PushTradesKeys(t: seq<nat>, s: nat, k: nat)
      requires slots >= 1 && s + slots <= |t| && NoRepeats(t) && k !in t && k != missing
      requires t[s] != missing
      ensures var u, x := Pushed(t, s, k), t[s];
              && NoRepeats(u) && x !in u && x != k
              && Keys(u) + {x} == Keys(t) + {k}
    {
      var u, x := Pushed(t, s, k), t[s];
      PushedAt(t, s, k);
      forall i | 0 <= i < |t|
        ensures t[i] == x || t[i] in u
      {
        if s < i < s + slots { assert u[i - 1] == t[i]; } else if i != s { assert u[i] == t[i]; }
      }
      assert u[s + slots - 1] == k;
    }

    /** A key that sits in bucket `h` shares both homes with a key that calls `h` home. */
    lemma SharesBucket(t: seq<nat>, level: nat, h: nat, k: nat, i: nat)
      requires Good(t, level) && IsKey(k) && i < |t| && t[i] != missing && InBucket(i, h)
      requires h == Hash1(k, Ones(level)) || h == Hash2(k, Ones(level))
      ensures IsKey(t[i]) && SamePair(t[i], k, level)
      ensures forall j :: AtHome(j, t[i], Ones(level)) == AtHome(j, k, Ones(level))
    {
      HomesShared(i, t[i], k, level);
    }

    /** After a push every key of the table is still at home. */
    lemma PushKeepsHomes(t: seq<nat>, level: nat, h: nat, k: nat, i: nat)
      requires Good(t, level) && IsKey(k)
      requires h == Hash1(k, Ones(level)) || h == Hash2(k, Ones(level))
      requires Start(h) + slots <= |t| && i < |t|
      ensures var u := Pushed(t, Start(h), k);
              |u| == |t| && (u[i] != missing ==> u[i] < Pow2(bits) && AtHome(i, u[i], Ones(level)))
    {
      var s := Start(h);
      var u := Pushed(t, s, k);
      PushedAt(t, s, k);
      if s <= i < s + slots - 1 && u[i] != missing {
        SharesBucket(t, level, h, k, i + 1);
        assert InBucket(i, h);
      }
    }

    /** The two home buckets differ, so the key pushed out of the one can go on to the other. */
    lemma KickedHasOtherHome(x: nat, k: nat, h: nat, level: nat)
      requires x < Pow2(bits) && k < Pow2(bits) && 0 < level <= bits && SamePair(x, k, level)
      requires h == Hash1(k, Ones(level)) || h == Hash2(k, Ones(level))
      ensures h == Hash1(x, Ones(level)) || h == Hash2(x, Ones(level))
      ensures Hash1(x, Ones(level)) != Hash2(x, Ones(level))
    {
      HashesMirror(x, level);
      HashesMirror(k, level);
    }

    /** One kick-out keeps the table good and trades `k` for the key pushed out, which shares both
      * home buckets with `k`; the pair stays full. */
    lemma KickKeepsKeys(t: seq<nat>, level: nat, h: nat, k: nat)
      requires Good(t, level) && IsKey(k) && k !in t
      requires h == Hash1(k, Ones(level)) || h == Hash2(k, Ones(level))
      requires Start(h) + slots <= |t|
      requires PairFull(t, k, Ones(level))
      ensures var u, x := Pushed(t, Start(h), k), t[Start(h)];
              && Good(u, level) && IsKey(x) && x !in u
              && Keys(u) + {x} == Keys(t) + {k}
              && PairFull(u, x, Ones(level))
              && SamePair(x, k, level)
    {
      var s := Start(h);
      var u, x, mask := Pushed(t, s, k), t[s], Ones(level);
      PushedAt(t, s, k);
      assert InBucket(s, h) && AtHome(s, k, mask);
      SharesBucket(t, level, h, k, s);
      PushTradesKeys(t, s, k);
      forall i | 0 <= i < |u| && u[i] != missing
        ensures u[i] < Pow2(bits) && AtHome(i, u[i], mask)
      {
        PushKeepsHomes(t, level, h, k, i);
      }
      forall i | 0 <= i < |u| && AtHome(i, x, mask)
        ensures u[i] != missing
      {
        PushStaysFull(t, level, h, k, i);
      }
    }

    lemma PushStaysFull(t: seq<nat>, level: nat, h: nat, k: nat, i: nat)
      requires slots >= 1 && IsKey(k)
      requires h == Hash1(k, Ones(level)) || h == Hash2(k, Ones(level))
      requires Start(h) + slots <= |t| && i < |t| && AtHome(i, k, Ones(level))
      requires PairFull(t, k, Ones(level))
      ensures |Pushed(t, Start(h), k)| == |t| && Pushed(t, Start(h), k)[i] != missing
    {
      var s := Start(h);
      PushedAt(t, s, k);
      if s <= i < s + slots - 1 {
        assert InBucket(i + 1, h) && AtHome(i + 1, k, Ones(level));
      }
    }

    // ------------------------------------------------------------------ iteration

    /** Where an iterator standing at `i` comes to rest: the first slot in use, or the end. */
    function NextLive(t: seq<nat>, i: nat): (n: nat)
      requires i <= |t|
      ensures i <= n <= |t|
      ensures n < |t| ==> t[n] != missing
      ensures forall j :: i <= j < n ==> t[j] == missing
      decreases |t| - i
    {
      if i == |t| || t[i] != missing then i else NextLive(t, i + 1)
    }

    /** Nothing is met between `i` and the next stop. */
    lemma {:induction false} SkipEmpty(t: seq<nat>, i: nat)
      requires i <= |t|
      ensures Keys(t[..NextLive(t, i)]) == Keys(t[..i])
      decreases |t| - i
    {
      if i < |t| && t[i] == missing {
        SkipEmpty(t, i + 1);
        assert t[..i + 1] == t[..i] + [t[i]];
      }
    }

    // ------------------------------------------------------------------ room

    predicate SamePair(x: nat, k: nat, level: nat)
      requires x < Pow2(bits) && k < Pow2(bits)
    {
      Hash1(x, Ones(level)) == Hash1(k, Ones(level)) || Hash1(x, Ones(level)) == Hash2(k, Ones(level))
    }

    /** The slots of one pair of buckets; at level 0 both hashes name the only bucket. */
    function Room(level: nat): nat { if level == 0 then slots else 2 * slots }

    ghost function Rivals(s: set<nat>, k: nat, level: nat): set<nat>
      requires k < Pow2(bits)
    {
      set x | x in s && x < Pow2(bits) && SamePair(x, k, level)
    }

    /** A set of keys fits a level when no pair of buckets is home to more keys than it has slots. */
    ghost predicate Fits(s: set<nat>, level: nat) {
      forall k {:trigger Rivals(s, k, level)} :: k in s && k < Pow2(bits) ==> |Rivals(s, k, level)| <= Room(level)
    }

    /** No level from `a` up to, not including, `b` has room for the keys. */
    ghost predicate NoneFits(s: set<nat>, a: nat, b: nat) {
      forall l {:trigger Fits(s, l)} :: a <= l < b ==> !Fits(s, l)
    }

    lemma FewerFit(s: set<nat>, more: set<nat>, level: nat)
      requires s <= more && Fits(more, level)
      ensures Fits(s, level)
    {
      forall k | k in s && k < Pow2(bits)
        ensures |Rivals(s, k, level)| <= Room(level)
      {
        SubsetSize(Rivals(s, k, level), Rivals(more, k, level));
      }
    }

    lemma FullMask(x: nat)
      requires x < Pow2(bits)
      ensures Hash1(x, Ones(bits)) == x
    {
      MaskIsRemainder(x, bits);
      ModUnique(x, 0, x, Pow2(bits));
    }

    /** More keys fit nowhere where fewer do not. */
    lemma NoneFitsMore(s: set<nat>, more: set<nat>, a: nat, b: nat)
      requires s <= more && NoneFits(s, a, b)
      ensures NoneFits(more, a, b)
    {
      forall l | a <= l < b
        ensures !Fits(more, l)
      {
        if Fits(more, l) {
          FewerFit(s, more, l);
        }
      }
    }

    /** With all key bits in the mask a pair is home to two keys only, so everything fits. */
    lemma TopLevelFits(s: set<nat>)
      requires slots >= 1
      ensures Fits(s, bits)
    {
      forall k | k in s && k < Pow2(bits)
        ensures |Rivals(s, k, bits)| <= Room(bits)
      {
        var twins := {k, Pow2(bits) - 1 - k};
        forall x | x in Rivals(s, k, bits)
          ensures x in twins
        {
          HashesMirror(k, bits);
          FullMask(x);
          FullMask(k);
        }
        SubsetSize(Rivals(s, k, bits), twins);
        if bits == 0 {
          assert twins == {0};
        }
      }
    }

    /** The slots that are home to `k`. */
    ghost function HomeSlots(k: nat, mask: nat): set<int>
      requires k < Pow2(bits)
    {
      Range(Start(Hash1(k, mask)), slots) + Range(Start(Hash2(k, mask)), slots)
    }

    lemma HomeSlotsCount(k: nat, level: nat)
      requires k < Pow2(bits) && level <= bits
      ensures |HomeSlots(k, Ones(level))| == Room(level)
      ensures forall i :: i in HomeSlots(k, Ones(level)) <==> AtHome(i, k, Ones(level))
    {
      var mask := Ones(level);
      var a, b := Hash1(k, mask), Hash2(k, mask);
      HashesMirror(k, level);
      RangeSize(Start(a), slots);
      RangeSize(Start(b), slots);
      if level == 0 {
        assert HomeSlots(k, mask) == Range(Start(a), slots);
      } else {
        if a < b { BucketsApart(a, b); } else { BucketsApart(b, a); }
        RangesSize(Start(a), Start(b), slots, slots);
      }
    }

    /** What is stored fits. */
    lemma StoredFits(t: seq<nat>, level: nat)
      requires Good(t, level)
      ensures Fits(Keys(t), level)
    {
      forall k | k in Keys(t) && k < Pow2(bits)
        ensures |Rivals(Keys(t), k, level)| <= Room(level)
      {
        var home := set i | i in HomeSlots(k, Ones(level)) && 0 <= i < |t|;
        forall x | x in Rivals(Keys(t), k, level)
          ensures x in Image(t, home)
        {
          var i :| 0 <= i < |t| && t[i] == x;
          HashesMirror(x, level);
          HashesMirror(k, level);
          HomeSlotsCount(k, level);
          assert i in home;
        }
        HomeSlotsCount(k, level);
        SubsetSize(home, HomeSlots(k, Ones(level)));
        ImageSize(t, home);
        SubsetSize(Rivals(Keys(t), k, level), Image(t, home));
      }
    }

    /** A full pair has no room for one more key. */
    lemma FullDoesNotFit(t: seq<nat>, level: nat, k: nat)
      requires Good(t, level) && IsKey(k) && k !in t
      requires PairFull(t, k, Ones(level))
      ensures !Fits(Keys(t) + {k}, level)
    {
      var home, all := HomeSlots(k, Ones(level)), Keys(t) + {k};
      HomeSlotsCount(k, level);
      forall i | i in home
        ensures 0 <= i < |t| && t[i] in Rivals(all, k, level) && t[i] != k && t[i] != missing
      {
        FullSlotIsRival(t, level, k, i);
      }
      InjectiveImageSize(t, home);
      SubsetSize(Image(t, home), Rivals(all, k, level) - {k});
      assert k in Rivals(all, k, level);
    }

    lemma FullSlotIsRival(t: seq<nat>, level: nat, k: nat, i: int)
      requires Good(t, level) && IsKey(k) && k !in t
      requires PairFull(t, k, Ones(level)) && AtHome(i, k, Ones(level))
      ensures 0 <= i < |t| && t[i] in Rivals(Keys(t) + {k}, k, level) && t[i] != k && t[i] != missing
    {
      BucketInTable(k, level);
      assert t[i] != missing;
      HomesShared(i, t[i], k, level);
    }
  }

  /** `xs` names every member of `s` exactly once. */
  ghost predicate Lists(xs: seq<nat>, s: set<nat>) {
    && (forall k :: k in xs <==> k in s)
    && |xs| == |s|
    && (forall i, j :: 0 <= i < j < |xs| ==> xs[i] != xs[j])
  }

  lemma ListsMore(xs: seq<nat>, s: set<nat>, x: nat)
    requires Lists(xs, s) && x !in s
    ensures Lists(xs + [x], s + {x})
  {
  }

  // ------------------------------------------------------------------ counting

  ghost function Range(a: int, n: nat): set<int> {
    if n == 0 then {} else Range(a, n - 1) + {a + n - 1}
  }

  lemma {:induction false} RangeSize(a: int, n: nat)
    ensures forall i :: i in Range(a, n) <==> a <= i < a + n
    ensures |Range(a, n)| == n
  {
    if n > 0 {
      RangeSize(a, n - 1);
    }
  }

  lemma RangesSize(a: int, b: int, m: nat, n: nat)
    requires a + n <= b || b + m <= a
    ensures |Range(a, n) + Range(b, m)| == n + m
  {
    RangeSize(a, n);
    RangeSize(b, m);
    forall i | i in Range(a, n)
      ensures i !in Range(b, m)
    {
      assert a <= i < a + n;
    }
    Disjoint(Range(a, n), Range(b, m));
  }

  ghost function Image(t: seq<nat>, at: set<int>): set<nat> {
    set i | i in at && 0 <= i < |t| :: t[i]
  }

  lemma {:induction false} ImageSize(t: seq<nat>, at: set<int>)
    ensures |Image(t, at)| <= |at|
    decreases |at|
  {
    if |at| == 0 {
      assert Image(t, at) == {};
    } else {
      var i := Any(at);
      var rest := at - {i};
      ImageSize(t, rest);
      if 0 <= i < |t| {
        assert Image(t, at) == Image(t, rest) + {t[i]};
      } else {
        assert Image(t, at) == Image(t, rest);
      }
    }
  }

  /** Slots that hold different keys count as many keys. */
  lemma {:induction false} InjectiveImageSize(t: seq<nat>, at: set<int>)
    requires forall i {:trigger i in at} :: i in at ==> 0 <= i < |t|
    requires forall i, j {:trigger t[i], t[j]} :: i in at && j in at && t[i] == t[j] ==> i == j
    ensures |Image(t, at)| == |at|
    decreases |at|
  {
    if |at| == 0 {
      assert Image(t, at) == {};
    } else {
      var i := Any(at);
      var rest := at - {i};
      InjectiveImageSize(t, rest);
      assert Image(t, at) == Image(t, rest) + {t[i]};
      assert t[i] !in Image(t, rest);
    }
  }
}

/**
  The block index of an implicit producer: a ring of entries that maps the base index of a block of
  elements to the block.  Entries are reused once their block is gone, the last insertion can be taken
  back, and a full ring is replaced by one of twice the size that shares the old entries.

  A block number b stands for the elements BLOCK * b, ..., BLOCK * b + BLOCK - 1.
*/
module BlockIndex {
  import opened Arith

  const BLOCK: nat := 32
  const INVALID: nat := 1

  /** Machine words have 64 bits. */
  const WORD: nat := 0x1_0000_0000_0000_0000

  /** The number of blocks from the one with base index `key` up to block b, as the source computes it: the
    * difference of the base indices, divided as an unsigned word. */
  function Offset(b: nat, key: nat): nat {
    ((BLOCK * b - key) % WORD) / BLOCK
  }

  /** A capacity that fits an address space. */
  ghost predicate IsCapacity(c: nat) {
    exists k: nat :: k <= 59 && c == Pow2(k)
  }

  lemma WordOfBlocks()
    ensures Pow2(59) == WORD / BLOCK
  {
    assert Pow2(8) == 0x100;
    Pow2Splits(8, 8);
    Pow2Splits(16, 16);
    Pow2Splits(32, 16);
    Pow2Splits(48, 8);
    assert Pow2(56) == 0x100_0000_0000_0000;
    assert Pow2(59) == 2 * Pow2(58) && Pow2(58) == 2 * Pow2(57) && Pow2(57) == 2 * Pow2(56);
  }

  /** Dividing a difference of base indices as an unsigned word gives the difference of the block numbers, but
    * for multiples of 2^59. */
  lemma UnsignedDivision(e: int)
    ensures ((BLOCK * e) % WORD) / BLOCK == e % (WORD / BLOCK)
  {
    var q := WORD / BLOCK;
    ModUnique(BLOCK * e, e / q, BLOCK * (e % q), WORD);
  }

  lemma RemainderOfRemainder(p: int, e: int, q: int, r: int, c: int)
    requires c > 0 && q > 0 && q == r * c
    ensures (p + e % q) % c == (p + e) % c
  {
    var n, m := e / q, e % q;
    assert e == n * q + m;
    assert n * q == (n * r) * c;
    ModShift(p + m, n * r, c);
  }

  /** For capacities that are powers of two it does not matter that the quotient of a negative difference is
    * taken unsigned: the mask that follows makes the same position of both. */
  lemma UnsignedQuotient(p: nat, e: int, c: nat)
    requires IsCapacity(c)
    ensures Wrap(p + ((BLOCK * e) % WORD) / BLOCK, c) == Around(p + e, c)
  {
    var k: nat :| k <= 59 && c == Pow2(k);
    WordOfBlocks();
    Pow2Splits(59 - k, k);
    UnsignedDivision(e);
    RemainderOfRemainder(p, e, WORD / BLOCK, Pow2(59 - k), c);
    WrapIsRemainder(p + e % (WORD / BLOCK), c);
    AroundIsRemainder(p + e, c);
  }

  datatype Value = Garbage | Null | Held(block: nat)

  datatype Entry = Entry(key: nat, value: Value)

  /** For the proof: block b has position b + 1 + shift around the ring; `low` is the oldest block this
    * ring ever listed, and `count` the number of blocks when it was replaced. */
  datatype Frame = Frame(shift: nat, low: nat, count: nat)

  /** The rings of all headers made so far, the current one last. Each lists its entries by number; the
    * length is its capacity. */
  datatype Rings = Rings(index: seq<seq<nat>>, frames: seq<Frame>) {

    predicate Shaped() {
      |index| == |frames| > 0 && forall h {:trigger index[h]} :: 0 <= h < |index| ==> 2 <= |index[h]|
    }

    predicate Below(n: nat) {
      forall h, p {:trigger index[h][p]} :: 0 <= h < |index| && 0 <= p < |index[h]| ==> index[h][p] < n
    }

    function Last(): nat
      requires Shaped()
    {
      |index| - 1
    }

    function Cap(h: nat): (c: nat)
      requires Shaped() && h < |index|
      ensures c >= 2
    {
      |index[h]|
    }

    /** The position of block b in the ring of header h. */
    function Pos(h: nat, b: nat): nat
      requires Shaped() && h < |index|
    {
      Wrap(b + 1 + frames[h].shift, Cap(h))
    }

    /** The position of the block before b. */
    function Before(h: nat, b: nat): nat
      requires Shaped() && h < |index|
    {
      Wrap(b + frames[h].shift, Cap(h))
    }

    function At(h: nat, p: nat): nat
      requires Shaped() && h < |index| && p < Cap(h)
    {
      index[h][p]
    }

    /** The entry of block b. */
    function EntryOf(b: nat): nat
      requires Shaped()
    {
      At(Last(), Pos(Last(), b))
    }

    ghost predicate Distinct()
      requires Shaped()
    {
      forall p, q {:trigger At(Last(), p), At(Last(), q)} ::
        0 <= p < q < Cap(Last()) ==> At(Last(), p) != At(Last(), q)
    }

    /** Where two rings share an entry they agree on the blocks that can have it. */
    ghost predicate Shares(h: nat)
      requires Shaped() && h < |index|
    {
      forall p, q, b: nat {:trigger At(h, p), At(Last(), q), Pos(h, b)} ::
        0 <= p < Cap(h) && 0 <= q < Cap(Last()) && At(h, p) == At(Last(), q) && Pos(Last(), b) == q ==>
          Pos(h, b) == p
    }

    /** A replaced ring finds the same entry. */
    ghost predicate Agrees(h: nat, b: nat)
      requires Shaped() && h < |index|
    {
      At(h, Pos(h, b)) == EntryOf(b)
    }

    /** Header h listed block b when it was replaced. */
    ghost predicate Listed(h: nat, b: nat)
      requires Shaped() && h < |index|
    {
      frames[h].low <= b < frames[h].count && frames[h].count <= b + Cap(h)
    }

    ghost predicate Inv(n: nat, low: nat, count: nat) {
      && Shaped() && Below(n) && Distinct()
      && (forall h {:trigger Shares(h)} :: 0 <= h < |index| ==> Shares(h))
      && (forall h, b: nat {:trigger Agrees(h, b)} :: 0 <= h < Last() && Listed(h, b) && low <= b < count ==> Agrees(h, b))
    }

    // -------------------------------------------------------------- positions

    lemma PosRange(h: nat, b: nat)
      requires Shaped() && h < |index|
      ensures Pos(h, b) < Cap(h) && Before(h, b) < Cap(h)
    {
    }

    /** Blocks at the same position are a multiple of the capacity apart. */
    lemma PosInjective(h: nat, b: nat, c: nat)
      requires Shaped() && h < |index| && Pos(h, b) == Pos(h, c) && b - c < Cap(h) && c - b < Cap(h)
      ensures b == c
    {
      WrapIsRemainder(b + 1 + frames[h].shift, Cap(h));
      WrapIsRemainder(c + 1 + frames[h].shift, Cap(h));
      ModInjective(b + 1 + frames[h].shift, c + 1 + frames[h].shift, Cap(h));
    }

    lemma PosOneRound(h: nat, b: nat)
      requires Shaped() && h < |index|
      ensures Pos(h, b + Cap(h)) == Pos(h, b)
    {
    }

    lemma TailMoves(h: nat, b: nat)
      requires Shaped() && h < |index|
      ensures Wrap(Before(h, b) + 1, Cap(h)) == Pos(h, b) == Before(h, b + 1)
      ensures Around(Pos(h, b) - 1, Cap(h)) == Before(h, b)
    {
      var x, c := b + frames[h].shift, Cap(h);
      WrapIsRemainder(x, c);
      WrapIsRemainder(x + 1, c);
      WrapIsRemainder(Before(h, b) + 1, c);
      ModEarly(x, 1, c);
      AroundIsRemainder(Pos(h, b) - 1, c);
      ModEarly(x + 1, -1, c);
    }

    /** The tail-relative lookup (include/concurrentqueue.hpp:2871-2872). */
    lemma OffsetFinds(h: nat, b: nat, c: nat)
      requires Shaped() && h < |index|
      ensures Around(Pos(h, b) + (c - b), Cap(h)) == Pos(h, c)
    {
      var s := frames[h].shift + 1;
      WrapIsRemainder(b + s, Cap(h));
      WrapIsRemainder(c + s, Cap(h));
      AroundIsRemainder(Pos(h, b) + (c - b), Cap(h));
      ModEarly(b + s, c - b, Cap(h));
    }

    // -------------------------------------------------------------- growth

    /** The ring that replaces the current one: its entries from the oldest to the tail, then new ones,
      * numbered from n. */
    function Doubled(tail: nat, n: nat): seq<nat>
      requires Shaped() && tail < Cap(Last())
    {
      Rotated(tail) + Fresh(n, Cap(Last()))
    }

    function Rotated(tail: nat): seq<nat>
      requires Shaped() && tail < Cap(Last())
    {
      seq<nat>(Cap(Last()), (i: nat) requires 0 <= i < Cap(Last()) => At(Last(), Wrap(tail + 1 + i, Cap(Last()))))
    }

    function Grown(tail: nat, n: nat, low: nat, count: nat): Rings
      requires Shaped() && tail < Cap(Last())
    {
      var c := Cap(Last());
      Rings(index + [Doubled(tail, n)],
            frames[Last() := frames[Last()].(count := count)] + [Frame(GrowthShift(count, c), low, 0)])
    }

    /** Where the blocks listed last go, and the one being inserted. */
    lemma GrownPos(tail: nat, n: nat, low: nat, m: nat, b: nat)
      requires Shaped() && tail == Before(Last(), m)
      requires b <= m <= b + Cap(Last())
      ensures tail < Cap(Last())
      ensures var r := Grown(tail, n, low, m);
        && r.Shaped() && r.Pos(r.Last(), b) == b + Cap(Last()) - m && r.Before(r.Last(), m) == Cap(Last()) - 1
    {
      var r, c := Grown(tail, n, low, m), Cap(Last());
      GrownShift(b + 1, m, c);
      GrownShift(m, m, c);
    }

    /** A position in the old half is that of the same blocks in the old ring. */
    lemma GrownOldHalf(tail: nat, n: nat, low: nat, m: nat, b: nat)
      requires Shaped() && tail == Before(Last(), m)
      ensures tail < Cap(Last())
      ensures var r := Grown(tail, n, low, m);
        && r.Shaped()
        && (r.Pos(r.Last(), b) < Cap(Last()) ==> Pos(Last(), b) == Wrap(tail + 1 + r.Pos(r.Last(), b), Cap(Last())))
    {
      var r, c := Grown(tail, n, low, m), Cap(Last());
      GrownHalves(b, m, frames[Last()].shift, c);
    }

    lemma RotatedDistinct(tail: nat, i: nat, j: nat)
      requires Shaped() && Distinct() && tail < Cap(Last()) && i < j < Cap(Last())
      ensures Rotated(tail)[i] != Rotated(tail)[j]
    {
      var c := Cap(Last());
      var p, q := Wrap(tail + 1 + i, c), Wrap(tail + 1 + j, c);
      WrapIsRemainder(tail + 1 + i, c);
      WrapIsRemainder(tail + 1 + j, c);
      if p == q { ModInjective(tail + 1 + i, tail + 1 + j, c); }
      assert At(Last(), p) != At(Last(), q);
    }

    lemma DoubledDistinct(tail: nat, n: nat)
      requires Shaped() && Below(n) && Distinct() && tail < Cap(Last())
      ensures forall i, j :: 0 <= i < j < |Doubled(tail, n)| ==> Doubled(tail, n)[i] != Doubled(tail, n)[j]
      ensures forall i :: 0 <= i < |Doubled(tail, n)| ==> Doubled(tail, n)[i] < n + Cap(Last())
    {
      var d, c := Doubled(tail, n), Cap(Last());
      forall i | 0 <= i < c
        ensures d[i] < n
      {
        var p := Wrap(tail + 1 + i, c);
        assert d[i] == Rotated(tail)[i] == At(Last(), p);
        assert index[Last()][p] < n;
      }
      forall i, j | 0 <= i < j < |d|
        ensures d[i] != d[j]
      {
        if j < c { RotatedDistinct(tail, i, j); }
      }
    }

    lemma GrownKeepsShares(tail: nat, n: nat, low: nat, m: nat, h: nat)
      requires Shaped() && Below(n) && tail == Before(Last(), m) && h < |index| && Shares(h)
      ensures tail < Cap(Last()) && Grown(tail, n, low, m).Shaped() && Grown(tail, n, low, m).Shares(h)
    {
      var r, c := Grown(tail, n, low, m), Cap(Last());
      forall p, q, b: nat | 0 <= p < Cap(h) && 0 <= q < 2 * c && r.At(h, p) == r.At(r.Last(), q) && r.Pos(r.Last(), b) == q
        ensures r.Pos(h, b) == p
      {
        assert r.At(h, p) == index[h][p];
        if q < c {
          GrownOldHalf(tail, n, low, m, b);
          assert At(h, p) == At(Last(), Wrap(tail + 1 + q, c));
          assert Pos(h, b) == p;
        } else {
          assert false;
        }
      }
    }

    /** A larger ring finds every block where the old ones did. */
    lemma GrownKeepsInv(tail: nat, n: nat, low: nat, m: nat)
      requires Inv(n, low, m) && tail == Before(Last(), m) && m <= low + Cap(Last()) && Cap(Last()) <= m
      ensures tail < Cap(Last())
      ensures Grown(tail, n, low, m).Inv(n + Cap(Last()), low, m)
      ensures forall b: nat :: m - Cap(Last()) <= b < m ==> Grown(tail, n, low, m).EntryOf(b) == EntryOf(b)
      ensures Grown(tail, n, low, m).EntryOf(m) == n
    {
      var r, c := Grown(tail, n, low, m), Cap(Last());
      DoubledDistinct(tail, n);
      forall b: nat | m - c <= b < m
        ensures r.EntryOf(b) == EntryOf(b)
      {
        GrownPos(tail, n, low, m, b);
        GrownOldHalf(tail, n, low, m, b);
      }
      GrownPos(tail, n, low, m, m);
      forall h | 0 <= h < |r.index|
        ensures r.Shares(h)
      {
        if h < |index| { GrownKeepsShares(tail, n, low, m, h); }
      }
      forall h, b: nat | 0 <= h < r.Last() && r.Listed(h, b) && low <= b < m
        ensures r.Agrees(h, b)
      {
        assert r.At(h, r.Pos(h, b)) == At(h, Pos(h, b));
        assert h < Last() ==> Agrees(h, b);
      }
    }
  }

  /** The shift that puts block m - 1 at position c - 1 of a ring of capacity 2 * c. */
  function GrowthShift(m: nat, c: nat): nat
    requires c >= 1
  {
    if m == 0 then c - 1 else GrowthShift(m - 1, c) + (2 * c - 1)
  }

  lemma {:induction false} GrowthShiftIs(m: nat, c: nat)
    requires c >= 1
    ensures GrowthShift(m, c) + m == c - 1 + (2 * c) * m
  {
    if m > 0 {
      GrowthShiftIs(m - 1, c);
      assert (2 * c) * m == (2 * c) * (m - 1) + 2 * c;
    }
  }

  lemma GrownShift(x: nat, m: nat, c: nat)
    requires c >= 1 && m <= x + c - 1 && x <= m + 1
    ensures Wrap(x + GrowthShift(m, c), 2 * c) == x + c - 1 - m
  {
    GrowthShiftIs(m, c);
    WrapIsRemainder(x + GrowthShift(m, c), 2 * c);
    assert (2 * c) * m == m * (2 * c);
    ModUnique(x + GrowthShift(m, c), m, x + c - 1 - m, 2 * c);
  }

  lemma GrownHalves(b: nat, m: nat, s: nat, c: nat)
    requires c >= 1
    ensures Wrap(b + 1 + s, c) == Wrap(Wrap(m + s, c) + 1 + Wrap(b + 1 + GrowthShift(m, c), 2 * c), c)
  {
    var g := GrowthShift(m, c);
    GrowthShiftIs(m, c);
    var k := Rounds(b + 1 + g, 2 * c);
    var i := Wrap(b + 1 + g, 2 * c);
    var q := SameInHalf(b, m, c, k, i, g);
    SameRemainder(b + 1 + s, m + s, 1 + i, q, c);
  }

  lemma Rounds(y: nat, d: nat) returns (k: nat)
    requires d >= 1
    ensures y == d * k + Wrap(y, d)
  {
    WrapIsRemainder(y, d);
    k := y / d;
  }

  lemma SameInHalf(b: nat, m: nat, c: nat, k: nat, i: nat, g: nat) returns (q: int)
    requires g + m == c - 1 + (2 * c) * m && b + 1 + g == (2 * c) * k + i
    ensures b - m - i == q * c
  {
    q := 2 * (k - m) - 1;
    assert (2 * c) * k - (2 * c) * m - c == q * c;
  }

  lemma SameRemainder(x: nat, y: nat, z: nat, q: int, c: nat)
    requires c >= 1 && x == y + z + q * c
    ensures Wrap(x, c) == Wrap(Wrap(y, c) + z, c)
  {
    WrapIsRemainder(x, c);
    WrapIsRemainder(y, c);
    WrapIsRemainder(Wrap(y, c) + z, c);
    ModShift(y + z, q, c);
    ModEarly(y, z, c);
  }

  function Fresh(n: nat, c: nat): seq<nat> {
    seq(c, (i: nat) => n + i)
  }

  // ---------------------------------------------------------------- the index

  /** For the proof: what the entry of a block should hold. */
  datatype Holding = Here(block: nat) | Away

  /** For the proof: how far the insertion of the next block has come. */
  datatype Phase = Resting | Keyed | Reserved | Rewound

  /** Entries and, for each header, its tail and ring exist in memory; no step depends on the rest: `held`
    * has one item for each block inserted, `begun` counts the one being inserted, too, from the moment it
    * took over an entry, even if that was taken back. */
  datatype Index = Index(entries: seq<Entry>, tails: seq<nat>, rings: Rings,
                         begun: nat, held: seq<Holding>, phase: Phase) {

    predicate Shaped() {
      && rings.Shaped() && rings.Below(|entries|)
      && |tails| == |rings.index|
      && forall h {:trigger tails[h]} :: 0 <= h < |tails| ==> tails[h] < |rings.index[h]|
    }

    function Last(): nat
      requires Shaped()
    {
      rings.Last()
    }

    /** The oldest block the current ring still lists. */
    function Low(): nat
      requires rings.Shaped()
    {
      var full := begun - rings.Cap(rings.Last());
      if full > rings.frames[rings.Last()].low then full else rings.frames[rings.Last()].low
    }

    function Key(e: nat): nat
      requires e < |entries|
    {
      entries[e].key
    }

    // -------------------------------------------------------------- invariant

    /** A key names a block that belongs at this position. */
    ghost predicate KeyFits(h: nat, p: nat)
      requires Shaped() && h < |tails| && p < rings.Cap(h)
    {
      var key := Key(rings.index[h][p]);
      key == INVALID || (key % BLOCK == 0 && rings.Pos(h, key / BLOCK) == p)
    }

    /** In the current ring it is one of the latest. */
    ghost predicate KeyCurrent(p: nat)
      requires Shaped() && p < rings.Cap(Last())
    {
      var key := Key(rings.index[Last()][p]);
      key == INVALID || Low() <= key / BLOCK < begun
    }

    /** The entry of a block still listed has its key, and the value it should have. */
    ghost predicate Kept(b: nat)
      requires Shaped() && b < |held|
    {
      var e := entries[rings.EntryOf(b)];
      e.key == BLOCK * b && e.value == if held[b].Here? then Held(held[b].block) else Null
    }

    /** The tail a replaced header is left with still has a key, and no block was listed since. */
    ghost predicate Frozen(h: nat)
      requires Shaped() && h < |tails|
    {
      Key(rings.index[h][tails[h]]) != INVALID && rings.frames[h].count <= |held|
    }

    ghost predicate InsertionInv()
      requires Shaped()
    {
      var next := rings.EntryOf(|held|);
      && |held| <= begun <= |held| + 1
      && tails[Last()] == (if phase == Reserved then rings.Pos(Last(), |held|) else rings.Before(Last(), |held|))
      && (phase != Resting ==> begun == |held| + 1)
      && (begun == |held| + 1 ==> Key(next) == BLOCK * |held|)
      && (begun == |held| + 1 && phase == Resting ==> entries[next].value == Null)
      && (rings.frames[Last()].low < |held| || rings.frames[Last()].low == 0)
    }

    ghost predicate Inv() {
      && Shaped() && InsertionInv() && rings.Inv(|entries|, Low(), |held|)
      && (forall h, p {:trigger KeyFits(h, p)} :: 0 <= h < |tails| && 0 <= p < rings.Cap(h) ==> KeyFits(h, p))
      && (forall p {:trigger KeyCurrent(p)} :: 0 <= p < rings.Cap(Last()) ==> KeyCurrent(p))
      && (forall b {:trigger Kept(b)} :: Low() <= b < |held| ==> Kept(b))
      && (forall b {:trigger held[b]} :: 0 <= b < |held| && held[b].Here? ==> Low() <= b)
      && (forall h {:trigger Frozen(h)} :: 0 <= h < Last() ==> Frozen(h))
    }

    // -------------------------------------------------------------- inserting

    /** The next position in line. */
    function NextTail(): nat
      requires Shaped()
    {
      Wrap(tails[Last()] + 1, rings.Cap(Last()))
    }

    /** The entry there. */
    function NextEntry(): nat
      requires Shaped()
    {
      rings.At(Last(), NextTail())
    }

    function SetKey(e: nat): Index
      requires e < |entries|
    {
      this.(entries := entries[e := entries[e].(key := BLOCK * |held|)], begun := |held| + 1, phase := Keyed)
    }

    function MoveTail(): Index
      requires Shaped()
    {
      this.(tails := tails[Last() := NextTail()], phase := Reserved)
    }

    /** `rewind_block_index_tail`. */
    function Rewind(): Index
      requires Shaped()
    {
      var tail: int := tails[Last()];
      this.(tails := tails[Last() := Around(tail - 1, rings.Cap(Last()))], phase := Rewound)
    }

    function WithValue(e: nat, value: Value): Index
      requires e < |entries|
    {
      this.(entries := entries[e := entries[e].(value := value)])
    }

    function TakeBack(e: nat): Index
      requires e < |entries|
    {
      WithValue(e, Null).(phase := Resting)
    }

    function Hold(e: nat, block: nat): Index
      requires e < |entries|
    {
      WithValue(e, Held(block)).(held := held + [Here(block)], phase := Resting)
    }

    /** A consumer that emptied block b takes it out of the index. */
    function Clear(e: nat, b: nat): Index
      requires e < |entries| && b < |held|
    {
      WithValue(e, Null).(held := held[b := Away])
    }

    /** `new_block_index`. */
    function Grow(): Index
      requires Shaped()
    {
      var c := rings.Cap(Last());
      this.(entries := entries + seq(c, _ => Entry(INVALID, Garbage)), tails := tails + [c - 1],
            rings := rings.Grown(tails[Last()], |entries|, Low(), |held|))
    }

    // -------------------------------------------------------------- taking an entry

    /** The entry in line belongs to no block that is still there. */
    ghost predicate Vacant()
      requires Shaped()
    {
      forall b {:trigger held[b]} :: 0 <= b < |held| && held[b].Here? ==> |held| < b + rings.Cap(Last())
    }

    lemma NextIsOwn()
      requires Shaped() && InsertionInv() && phase != Reserved
      ensures NextTail() == rings.Pos(Last(), |held|) && NextEntry() == rings.EntryOf(|held|) < |entries|
    {
      rings.TailMoves(Last(), |held|);
      rings.PosRange(Last(), |held|);
      assert rings.index[Last()][rings.Pos(Last(), |held|)] < |entries|;
    }

    /** An entry found with the invalid key, or without a block, may be taken. */
    lemma ReusableIsVacant()
      requires Inv() && phase == Resting
      requires NextEntry() < |entries| && (Key(NextEntry()) == INVALID || entries[NextEntry()].value == Null)
      ensures Vacant()
    {
      NextIsOwn();
      forall b | 0 <= b < |held| && held[b].Here?
        ensures |held| < b + rings.Cap(Last())
      {
        assert Low() <= b && Kept(b);
        if b + rings.Cap(Last()) <= |held| {
          assert b + rings.Cap(Last()) == |held|;
          rings.PosOneRound(Last(), b);
        }
      }
    }

    /** Only one key can be in the way: that of the block one round earlier, unless it is the block's own,
      * left over from an insertion that was taken back. */
    lemma KeyInTheWay()
      requires Inv() && phase == Resting
      requires NextEntry() < |entries| && Key(NextEntry()) != INVALID
      ensures if begun == |held| + 1 then Key(NextEntry()) == BLOCK * |held|
              else rings.Cap(Last()) <= |held| && Key(NextEntry()) == BLOCK * (|held| - rings.Cap(Last()))
    {
      NextIsOwn();
      rings.PosRange(Last(), |held|);
      var p := rings.Pos(Last(), |held|);
      assert KeyFits(Last(), p) && KeyCurrent(p);
      var b := Key(NextEntry()) / BLOCK;
      if begun == |held| {
        rings.PosOneRound(Last(), b);
        rings.PosInjective(Last(), b + rings.Cap(Last()), |held|);
      }
    }

    // -------------------------------------------------------------- every step keeps the invariant

    lemma EntryBelow(b: nat)
      requires Shaped()
      ensures rings.Pos(Last(), b) < rings.Cap(Last()) && rings.EntryOf(b) < |entries|
    {
      rings.PosRange(Last(), b);
      assert rings.index[Last()][rings.Pos(Last(), b)] < |entries|;
    }

    lemma EntriesDiffer(b: nat, c: nat)
      requires Shaped() && rings.Distinct()
      requires b != c && b - c < rings.Cap(Last()) && c - b < rings.Cap(Last())
      ensures rings.EntryOf(b) != rings.EntryOf(c)
    {
      rings.PosRange(Last(), b);
      rings.PosRange(Last(), c);
      var p, q := rings.Pos(Last(), b), rings.Pos(Last(), c);
      if p == q { rings.PosInjective(Last(), b, c); }
      assert rings.At(Last(), p) == rings.At(Last(), p) && rings.At(Last(), q) == rings.At(Last(), q);
    }

    lemma SetKeyKeepsFit(h: nat, p: nat)
      requires Inv() && phase == Resting && h < |tails| && p < rings.Cap(h)
      ensures NextEntry() < |entries| && SetKey(NextEntry()).Shaped() && SetKey(NextEntry()).KeyFits(h, p)
    {
      NextIsOwn();
      assert KeyFits(h, p) && rings.Shares(h);
      if rings.At(h, p) == NextEntry() {
        var q := rings.Pos(Last(), |held|);
        assert rings.At(h, p) == rings.At(Last(), q);
        assert rings.Pos(h, |held|) == p;
      }
    }

    lemma SetKeyKeepsCurrent(p: nat)
      requires Inv() && phase == Resting && p < rings.Cap(Last())
      ensures NextEntry() < |entries| && SetKey(NextEntry()).Shaped() && SetKey(NextEntry()).KeyCurrent(p)
    {
      NextIsOwn();
      assert KeyCurrent(p) && KeyFits(Last(), p);
      var key := Key(rings.index[Last()][p]);
      if key != INVALID && rings.At(Last(), p) != NextEntry() && key / BLOCK + rings.Cap(Last()) == |held| {
        rings.PosOneRound(Last(), key / BLOCK);
      }
    }

    lemma SetKeyKeepsKept(b: nat)
      requires Inv() && phase == Resting && SetKey(NextEntry()).Low() <= b < |held|
      ensures NextEntry() < |entries| && SetKey(NextEntry()).Shaped() && SetKey(NextEntry()).Kept(b)
    {
      NextIsOwn();
      assert Kept(b);
      EntriesDiffer(b, |held|);
    }

    lemma SetKeyKeepsInv()
      requires Inv() && phase == Resting && Vacant()
      ensures NextEntry() < |entries| && SetKey(NextEntry()).Inv()
    {
      NextIsOwn();
      var r := SetKey(NextEntry());
      forall h, p | 0 <= h < |tails| && 0 <= p < rings.Cap(h)
        ensures r.KeyFits(h, p)
      {
        SetKeyKeepsFit(h, p);
      }
      forall p | 0 <= p < rings.Cap(Last())
        ensures r.KeyCurrent(p)
      {
        SetKeyKeepsCurrent(p);
      }
      forall b | r.Low() <= b < |held|
        ensures r.Kept(b)
      {
        SetKeyKeepsKept(b);
      }
      forall h | 0 <= h < Last()
        ensures r.Frozen(h)
      {
        assert Frozen(h) && tails[h] < |rings.index[h]|;
      }
    }

    lemma MoveTailKeepsInv()
      requires Inv() && phase == Keyed
      ensures MoveTail().Inv() && MoveTail().tails[Last()] == rings.Pos(Last(), |held|)
    {
      NextIsOwn();
      SameKeys(MoveTail());
    }

    lemma RewindKeepsInv()
      requires Inv() && phase == Reserved
      ensures Rewind().Inv()
    {
      rings.TailMoves(Last(), |held|);
      SameKeys(Rewind());
    }

    /** Taking an insertion back leaves the tail where it was before. */
    lemma RewindUndoes()
      requires Inv() && phase == Resting && Vacant()
      ensures NextEntry() < |entries| && SetKey(NextEntry()).Inv()
      ensures SetKey(NextEntry()).MoveTail().Shaped()
      ensures SetKey(NextEntry()).MoveTail().Rewind().tails == tails
    {
      SetKeyKeepsInv();
      var r := SetKey(NextEntry());
      r.MoveTailKeepsInv();
      r.MoveTail().RewindKeepsInv();
    }

    /** Moving the current tail changes no key and no value. */
    lemma SameKeys(r: Index)
      requires Inv() && r.Shaped()
      requires r.entries == entries && r.rings == rings && r.held == held && r.begun == begun
      requires |r.tails| == |tails| && forall h :: 0 <= h < Last() ==> r.tails[h] == tails[h]
      requires r.InsertionInv()
      ensures r.Inv()
    {
      forall h, p | 0 <= h < |tails| && 0 <= p < rings.Cap(h)
        ensures r.KeyFits(h, p)
      {
        assert KeyFits(h, p);
      }
      forall p | 0 <= p < rings.Cap(Last())
        ensures r.KeyCurrent(p)
      {
        assert KeyCurrent(p);
      }
      forall b | Low() <= b < |held|
        ensures r.Kept(b)
      {
        assert Kept(b);
      }
      forall h | 0 <= h < Last()
        ensures r.Frozen(h)
      {
        assert Frozen(h);
      }
    }

    /** Writing a value changes no key. */
    lemma ValueKeepsKeys(e: nat, value: Value)
      requires Inv() && e < |entries|
      ensures WithValue(e, value).Shaped()
      ensures forall h, p {:trigger WithValue(e, value).KeyFits(h, p)} ::
        0 <= h < |tails| && 0 <= p < rings.Cap(h) ==> WithValue(e, value).KeyFits(h, p)
      ensures forall p {:trigger WithValue(e, value).KeyCurrent(p)} ::
        0 <= p < rings.Cap(Last()) ==> WithValue(e, value).KeyCurrent(p)
      ensures forall h {:trigger WithValue(e, value).Frozen(h)} :: 0 <= h < Last() ==> WithValue(e, value).Frozen(h)
    {
      var r := WithValue(e, value);
      forall h, p | 0 <= h < |tails| && 0 <= p < rings.Cap(h)
        ensures r.KeyFits(h, p)
      {
        assert KeyFits(h, p);
      }
      forall p | 0 <= p < rings.Cap(Last())
        ensures r.KeyCurrent(p)
      {
        assert KeyCurrent(p);
      }
      forall h | 0 <= h < Last()
        ensures r.Frozen(h)
      {
        assert Frozen(h) && tails[h] < |rings.index[h]|;
      }
    }

    lemma TakeBackKeepsInv(e: nat)
      requires Inv() && phase == Rewound && e == rings.EntryOf(|held|)
      ensures e < |entries| && TakeBack(e).Inv()
    {
      EntryBelow(|held|);
      var r := TakeBack(e);
      ValueKeepsKeys(e, Null);
      forall h, p | 0 <= h < |tails| && 0 <= p < rings.Cap(h)
        ensures r.KeyFits(h, p)
      {
        assert WithValue(e, Null).KeyFits(h, p);
      }
      forall p | 0 <= p < rings.Cap(Last())
        ensures r.KeyCurrent(p)
      {
        assert WithValue(e, Null).KeyCurrent(p);
      }
      forall h | 0 <= h < Last()
        ensures r.Frozen(h)
      {
        assert WithValue(e, Null).Frozen(h);
      }
      forall b | Low() <= b < |held|
        ensures r.Kept(b)
      {
        assert Kept(b);
        EntriesDiffer(b, |held|);
      }
    }

    lemma HoldKeepsInv(e: nat, block: nat)
      requires Inv() && phase == Reserved && e == rings.EntryOf(|held|)
      ensures e < |entries| && Hold(e, block).Inv()
    {
      EntryBelow(|held|);
      var r := Hold(e, block);
      ValueKeepsKeys(e, Held(block));
      rings.TailMoves(Last(), |held|);
      forall h, p | 0 <= h < |tails| && 0 <= p < rings.Cap(h)
        ensures r.KeyFits(h, p)
      {
        assert WithValue(e, Held(block)).KeyFits(h, p);
      }
      forall p | 0 <= p < rings.Cap(Last())
        ensures r.KeyCurrent(p)
      {
        assert WithValue(e, Held(block)).KeyCurrent(p);
      }
      forall h | 0 <= h < Last()
        ensures r.Frozen(h)
      {
        assert WithValue(e, Held(block)).Frozen(h);
      }
      forall b | Low() <= b < |r.held|
        ensures r.Kept(b)
      {
        if b < |held| {
          assert Kept(b);
          EntriesDiffer(b, |held|);
        }
      }
      forall h, b: nat | 0 <= h < Last() && rings.Listed(h, b) && Low() <= b < |r.held|
        ensures rings.Agrees(h, b)
      {
        assert Frozen(h);
      }
    }

    lemma ClearKeepsInv(e: nat, b: nat)
      requires Inv() && b < |held| && held[b].Here? && e == rings.EntryOf(b)
      ensures e < |entries| && Clear(e, b).Inv()
    {
      EntryBelow(b);
      var r := Clear(e, b);
      ValueKeepsKeys(e, Null);
      forall h, p | 0 <= h < |tails| && 0 <= p < rings.Cap(h)
        ensures r.KeyFits(h, p)
      {
        assert WithValue(e, Null).KeyFits(h, p);
      }
      forall p | 0 <= p < rings.Cap(Last())
        ensures r.KeyCurrent(p)
      {
        assert WithValue(e, Null).KeyCurrent(p);
      }
      forall h | 0 <= h < Last()
        ensures r.Frozen(h)
      {
        assert WithValue(e, Null).Frozen(h);
      }
      forall c | Low() <= c < |held|
        ensures r.Kept(c)
      {
        assert Kept(c);
        if c != b { EntriesDiffer(c, b); }
      }
    }

    lemma GrownFits(h: nat, p: nat)
      requires Inv() && Grow().Shaped() && h < |tails| && p < rings.Cap(h)
      ensures p < Grow().rings.Cap(h) && Grow().KeyFits(h, p)
    {
      assert KeyFits(h, p) && rings.index[h][p] < |entries|;
    }

    lemma GrownNewFits(p: nat)
      requires Inv() && begun == |held| && tails[Last()] == rings.Before(Last(), |held|)
      requires Grow().Shaped() && Grow().Low() == Low() && p < Grow().rings.Cap(|tails|)
      ensures Grow().KeyFits(|tails|, p) && Grow().KeyCurrent(p)
    {
      var r, h, c := Grow(), |tails|, rings.Cap(Last());
      if p < c {
        var q := Wrap(tails[Last()] + 1 + p, c);
        assert r.rings.index[h] == rings.Doubled(tails[Last()], |entries|);
        assert rings.Rotated(tails[Last()])[p] == rings.At(Last(), q);
        assert r.rings.index[h][p] == rings.index[Last()][q] < |entries|;
        assert KeyFits(Last(), q) && KeyCurrent(q);
        var b := Key(rings.index[Last()][q]) / BLOCK;
        if Key(rings.index[Last()][q]) != INVALID {
          rings.GrownPos(tails[Last()], |entries|, Low(), |held|, b);
          rings.GrownOldHalf(tails[Last()], |entries|, Low(), |held|, b);
          WrapApart(tails[Last()] + 1, p, r.rings.Pos(h, b), c);
        }
      }
    }

    lemma GrownShaped()
      requires Inv() && begun == |held| && tails[Last()] == rings.Before(Last(), |held|)
      requires rings.Cap(Last()) <= |held|
      ensures Grow().Shaped() && Grow().Low() == Low() && Grow().InsertionInv() && Grow().begun == |held|
      ensures Grow().rings.Inv(|Grow().entries|, Low(), |held|)
      ensures forall b: nat {:trigger Grow().rings.EntryOf(b)} ::
        Low() <= b < |held| ==> Grow().rings.EntryOf(b) == rings.EntryOf(b)
      ensures Grow().rings.EntryOf(|held|) == |entries|
    {
      rings.GrownKeepsInv(tails[Last()], |entries|, Low(), |held|);
      rings.GrownPos(tails[Last()], |entries|, Low(), |held|, |held|);
    }

    lemma GrowKeepsInv()
      requires Inv() && phase == Resting && begun == |held|
      requires NextEntry() < |entries| && Key(NextEntry()) != INVALID
      ensures Grow().Inv() && Grow().Low() == Low()
      ensures Grow().NextEntry() < |Grow().entries| && Grow().Key(Grow().NextEntry()) == INVALID
      ensures forall b: nat {:trigger Grow().rings.EntryOf(b)} ::
        Low() <= b < |held| ==> Grow().rings.EntryOf(b) == rings.EntryOf(b)
    {
      KeyInTheWay();
      GrownShaped();
      var r := Grow();
      r.NextIsOwn();
      forall h, p | 0 <= h < |r.tails| && 0 <= p < r.rings.Cap(h)
        ensures r.KeyFits(h, p)
      {
        if h < |tails| { GrownFits(h, p); } else { GrownNewFits(p); }
      }
      forall p | 0 <= p < r.rings.Cap(r.Last())
        ensures r.KeyCurrent(p)
      {
        GrownNewFits(p);
      }
      forall b | Low() <= b < |held|
        ensures r.Kept(b)
      {
        assert Kept(b);
        EntryBelow(b);
      }
      forall h | 0 <= h < r.Last()
        ensures r.Frozen(h)
      {
        GrownFrozen(h);
      }
    }

    lemma GrownFrozen(h: nat)
      requires Inv() && begun == |held| && tails[Last()] == rings.Before(Last(), |held|)
      requires rings.Cap(Last()) <= |held| && Grow().Shaped() && h < |tails|
      ensures Grow().Frozen(h)
    {
      assert tails[h] < |rings.index[h]| && rings.index[h][tails[h]] < |entries|;
      if h < Last() {
        assert Frozen(h);
      } else {
        rings.TailMoves(h, |held| - 1);
        assert Kept(|held| - 1);
      }
    }

    // -------------------------------------------------------------- looking up

    /** Header h, loaded when block b was there, can find it. */
    ghost predicate Sees(h: nat, b: nat)
      requires Shaped()
    {
      h < |tails| && b < |held| && held[b].Here? && (h == Last() || rings.Listed(h, b))
    }

    /** Position p, loaded as the tail of header h, has a key to count from. */
    ghost predicate TailSeen(h: nat, p: nat)
      requires Shaped()
    {
      h < |tails| && p < rings.Cap(h) && rings.index[h][p] < |entries| && Key(rings.index[h][p]) != INVALID
    }

    /** Once a block was inserted, every tail has a key. */
    lemma TailHasKey(h: nat)
      requires Inv() && h < |tails| && |held| > 0
      ensures TailSeen(h, tails[h])
    {
      assert tails[h] < |rings.index[h]| && rings.index[h][tails[h]] < |entries|;
      if h < Last() {
        assert Frozen(h);
      } else if phase != Reserved {
        rings.TailMoves(h, |held| - 1);
        assert Kept(|held| - 1);
      }
    }

    /** Counting from the key at the tail leads to the position of the block. */
    lemma LookupPosition(h: nat, p: nat, b: nat)
      requires Inv() && TailSeen(h, p) && IsCapacity(rings.Cap(h))
      ensures Wrap(p + Offset(b, Key(rings.index[h][p])), rings.Cap(h)) == rings.Pos(h, b)
    {
      assert KeyFits(h, p);
      var key := Key(rings.index[h][p]);
      rings.OffsetFinds(h, key / BLOCK, b);
      UnsignedQuotient(p, b - key / BLOCK, rings.Cap(h));
      assert BLOCK * (b - key / BLOCK) == BLOCK * b - key;
    }

    /** There, in whatever header, is the entry of the block, with its key and its value. */
    lemma LookupEntry(h: nat, b: nat)
      requires Inv() && Sees(h, b)
      ensures rings.Pos(h, b) < rings.Cap(h)
      ensures var e := rings.At(h, rings.Pos(h, b));
        && e == rings.EntryOf(b) < |entries|
        && Key(e) == BLOCK * b && entries[e].value == Held(held[b].block)
    {
      rings.PosRange(h, b);
      EntryBelow(b);
      assert Kept(b);
      if h < Last() {
        assert rings.Agrees(h, b);
      }
    }
  }

  /** The index a producer starts with: one header, all entries unused, the tail at the last position. */
  function Initial(capacity: nat): Index
    requires capacity >= 2
  {
    Index(seq(capacity, _ => Entry(INVALID, Garbage)), [capacity - 1],
          Rings([Fresh(0, capacity)], [Frame(capacity - 1, 0, 0)]), 0, [], Resting)
  }

  lemma InitialInv(capacity: nat)
    requires capacity >= 2
    ensures Initial(capacity).Inv()
  {
    var r := Initial(capacity);
    assert r.rings.Shaped() && r.rings.Distinct();
  }

  /** What consumers know of the index stays true: headers, positions, keys at tails, and the entries of the
    * blocks that are still there. */
  ghost predicate Evolves(r: Index, r': Index) {
    && r.Shaped() && r'.Shaped()
    && |r.tails| <= |r'.tails| && |r.held| <= |r'.held| && |r.entries| <= |r'.entries|
    && (forall h {:trigger r'.rings.index[h]} :: 0 <= h < |r.tails| ==>
          r'.rings.index[h] == r.rings.index[h] && r'.rings.frames[h].shift == r.rings.frames[h].shift)
    && (forall e {:trigger r'.entries[e]} :: 0 <= e < |r.entries| && r.entries[e].key != INVALID ==>
          r'.entries[e].key != INVALID)
    && (forall b {:trigger r'.held[b]} :: 0 <= b < |r.held| ==> r'.held[b] == r.held[b] || r'.held[b] == Away)
    && (forall b: nat {:trigger r'.rings.EntryOf(b)} :: r.Low() <= b < |r.held| ==> r'.rings.EntryOf(b) == r.rings.EntryOf(b))
    && (forall h: nat, b: nat {:trigger r'.Sees(h, b)} :: r.Sees(h, b) && b < |r'.held| && r'.held[b].Here? ==> r'.Sees(h, b))
  }

  /** A step that leaves the rings alone, only writes keys and values, and at most adds a block or lets one
    * go. */
  lemma SameRingsEvolve(r: Index, r': Index)
    requires r.Inv() && r'.Shaped() && r'.rings == r.rings
    requires |r'.entries| == |r.entries|
    requires forall e :: 0 <= e < |r.entries| && r.entries[e].key != INVALID ==> r'.entries[e].key != INVALID
    requires |r.held| <= |r'.held|
    requires forall b {:trigger r'.held[b]} :: 0 <= b < |r.held| ==> r'.held[b] == r.held[b] || r'.held[b] == Away
    ensures Evolves(r, r')
  {
    forall h: nat, b: nat | r.Sees(h, b) && b < |r'.held| && r'.held[b].Here?
      ensures r'.Sees(h, b)
    {
    }
  }

  lemma GrowEvolves(r: Index)
    requires r.Inv() && r.begun == |r.held| && r.Grow().Shaped()
    requires forall b: nat {:trigger r.Grow().rings.EntryOf(b)} ::
               r.Low() <= b < |r.held| ==> r.Grow().rings.EntryOf(b) == r.rings.EntryOf(b)
    ensures Evolves(r, r.Grow())
  {
    var r' := r.Grow();
    forall h: nat, b: nat | r.Sees(h, b)
      ensures r'.Sees(h, b)
    {
      assert r.held[b].Here?;
    }
  }

  lemma WrapApart(x: nat, i: nat, j: nat, c: nat)
    requires i < c && j < c && Wrap(x + i, c) == Wrap(x + j, c)
    ensures i == j
  {
    WrapIsRemainder(x + i, c);
    WrapIsRemainder(x + j, c);
    ModInjective(x + i, x + j, c);
  }
}

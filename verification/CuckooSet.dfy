/** `cuckoo_hash_set` as a class over its raw table, and its iterator. */
module CuckooSet {
  import opened Cuckoo
  import opened Arith
  import opened FiniteSets

  class HashSet {
    const shape: Shape
    var ht: array<nat>
    var mask: nat
    var sz: nat
    /** Number of one bits of `mask`. */
    ghost var level: nat

    ghost predicate Valid()
      reads this, ht
    {
      && mask == Ones(level)
      && shape.Good(ht[..], level)
      && sz == |Contents()|
    }

    /** The abstract set. */
    ghost function Contents(): set<nat>
      reads this, ht
    {
      shape.Keys(ht[..])
    }

    constructor (shape: Shape)
      requires shape.slots >= 1
      ensures this.shape == shape
      ensures Valid() && fresh(ht) && Contents() == {} && mask == 0 && level == 0
    {
      this.shape := shape;
      var t := new nat[shape.slots](_ => shape.missing);
      ht := t;
      mask, sz, level := 0, 0, 0;
      shape.EmptyIsGood(t[..], 0);
    }

    /** The copy owns its table. */
    constructor Copy(other: HashSet)
      requires other.Valid()
      ensures shape == other.shape && mask == other.mask && level == other.level
      ensures Valid() && fresh(ht) && ht[..] == other.ht[..] && Contents() == other.Contents()
    {
      shape := other.shape;
      var t := new nat[other.ht.Length](i requires 0 <= i < other.ht.Length reads other, other.ht => other.ht[i]);
      ht := t;
      mask, sz, level := other.mask, other.sz, other.level;
      new;
      assert ht[..] == other.ht[..];
    }

    method Size() returns (n: nat)
      requires Valid()
      ensures n == |Contents()|
    {
      n := sz;
    }

    method Capacity() returns (n: nat)
      requires Valid()
      ensures n == (mask + 1) * shape.slots == ht.Length
    {
      shape.StartIsProduct(mask + 1);
      n := (mask + 1) * shape.slots;
    }

    method Empty() returns (empty: bool)
      requires Valid()
      ensures empty <==> Contents() == {}
    {
      empty := sz == 0;
    }

    /** The first slot of a bucket that holds `x`, if any. */
    method FindIn(table: array<nat>, h: nat, x: nat) returns (pos: nat)
      requires shape.Start(h) + shape.slots <= table.Length
      ensures pos <= shape.slots
      ensures pos < shape.slots ==> table[shape.Start(h) + pos] == x
      ensures forall i {:trigger table[i]} :: shape.Start(h) <= i < shape.Start(h) + pos ==> table[i] != x
    {
      pos := 0;
      while pos < shape.slots && table[shape.Start(h) + pos] != x
        invariant pos <= shape.slots
        invariant forall i {:trigger table[i]} :: shape.Start(h) <= i < shape.Start(h) + pos ==> table[i] != x
      {
        pos := pos + 1;
      }
    }

    /** Pushes the first key out of a full bucket and appends `k`. */
    method KickOut(table: array<nat>, h: nat, k: nat) returns (cuckooed: nat)
      requires shape.slots >= 1 && shape.Start(h) + shape.slots <= table.Length
      modifies table
      ensures cuckooed == old(table[shape.Start(h)])
      ensures table[..] == shape.Pushed(old(table[..]), shape.Start(h), k)
    {
      var s := shape.Start(h);
      cuckooed := table[s];
      var pos := 1;
      while pos < shape.slots
        invariant 1 <= pos <= shape.slots
        invariant forall i {:trigger table[i]} :: s <= i < s + pos - 1 ==> table[i] == old(table[i + 1])
        invariant forall i {:trigger table[i]} :: 0 <= i < s || s + pos - 1 <= i < table.Length ==> table[i] == old(table[i])
      {
        table[s + pos - 1] := table[s + pos];
        pos := pos + 1;
      }
      table[s + pos - 1] := k;
      shape.PushedAt(old(table[..]), s, k);
    }

    /** Puts `k` into an empty slot of its home bucket `h`, if there is one. */
    method PutInto(table: array<nat>, h: nat, k: nat) returns (put: bool)
      requires mask == Ones(level) && shape.Good(table[..], level)
      requires shape.IsKey(k) && k !in table[..]
      requires h == shape.Hash1(k, mask) || h == shape.Hash2(k, mask)
      modifies table
      ensures put ==> shape.Good(table[..], level) && shape.Keys(table[..]) == old(shape.Keys(table[..])) + {k}
      ensures put == !old(shape.BucketFull(table[..], h))
      ensures !put ==> table[..] == old(table[..])
    {
      shape.BucketInTable(k, level);
      var s := shape.Start(h);
      var pos := FindIn(table, h, shape.missing);
      put := pos < shape.slots;
      if put {
        shape.Filled(table[..], level, s + pos, k);
        assert shape.InBucket(s + pos, h) && table[..][s + pos] == shape.missing;
        table[s + pos] := k;
        assert table[..] == old(table[..])[s + pos := k];
      }
    }

    /** One round of the kick-out loop: the oldest key of the bucket makes way, and its turn is next, in its other
      * home bucket. */
    method KickOnce(table: array<nat>, k: nat, useHash1: bool) returns (next: nat, nextHash1: bool)
      requires mask == Ones(level) && shape.Good(table[..], level) && mask > 0
      requires shape.IsKey(k) && k !in table[..] && shape.PairFull(table[..], k, mask)
      modifies table
      ensures shape.Good(table[..], level) && shape.IsKey(next) && next !in table[..]
      ensures shape.Keys(table[..]) + {next} == old(shape.Keys(table[..])) + {k}
      ensures shape.PairFull(table[..], next, mask)
      ensures var h := if useHash1 then shape.Hash1(k, mask) else shape.Hash2(k, mask);
              && shape.Start(h) + shape.slots <= table.Length && shape.slots >= 1
              && next == old(table[shape.Start(h)]) && table[..] == shape.Pushed(old(table[..]), shape.Start(h), k)
              && h in {shape.Hash1(next, mask), shape.Hash2(next, mask)}
              && h != if nextHash1 then shape.Hash1(next, mask) else shape.Hash2(next, mask)
    {
      var hash := if useHash1 then shape.Hash1(k, mask) else shape.Hash2(k, mask);
      shape.BucketInTable(k, level);
      var pos := FindIn(table, hash, shape.missing);
      if pos < shape.slots {
        assert shape.InBucket(shape.Start(hash) + pos, hash);
        assert false;
      }
      shape.KickKeepsKeys(table[..], level, hash, k);
      shape.KickedHasOtherHome(table[shape.Start(hash)], k, hash, level);
      next := KickOut(table, hash, k);
      nextHash1 := hash == shape.Hash2(next, mask);
    }

    /** The kick-out loop: `mask` times, the first key of one bucket of the pair makes way for the key
      * in hand and is carried to the other bucket. The pair is full all along, so no round ends in an
      * empty slot and one key is still in hand at the end. */
    method KickOuts(table: array<nat>, k0: nat) returns (k: nat)
      requires mask == Ones(level) && shape.Good(table[..], level)
      requires shape.IsKey(k0) && k0 !in table[..]
      requires shape.PairFull(table[..], k0, mask)
      modifies table
      ensures shape.Good(table[..], level)
      ensures shape.IsKey(k) && k !in table[..]
      ensures shape.Keys(table[..]) + {k} == old(shape.Keys(table[..])) + {k0}
      ensures shape.PairFull(table[..], k, mask)
    {
      k := k0;
      var useHash1 := true;
      var i := 0;
      while i < mask
        invariant shape.Good(table[..], level)
        invariant shape.IsKey(k) && k !in table[..]
        invariant shape.Keys(table[..]) + {k} == old(shape.Keys(table[..])) + {k0}
        invariant shape.PairFull(table[..], k, mask)
      {
        k, useHash1 := KickOnce(table, k, useHash1);
        i := i + 1;
      }
    }

    /** The private `insert`: puts `k0` into a home bucket of the given table, growing the table when
      * both are full and only then. The table handed back holds the old keys and `k0`; no level short
      * of the one it ends with has room for all of them. */
    method Place(k0: nat, table: array<nat>) returns (placed: array<nat>)
      requires mask == Ones(level) && shape.Good(table[..], level)
      requires shape.IsKey(k0) && k0 !in table[..]
      modifies this`mask, this`level, table
      ensures placed == table || fresh(placed)
      ensures mask == Ones(level) && shape.Good(placed[..], level)
      ensures shape.Keys(placed[..]) == old(shape.Keys(table[..])) + {k0}
      ensures old(level) <= level && shape.NoneFits(shape.Keys(placed[..]), old(level), level)
      ensures level == old(level) <==> !old(shape.PairFull(table[..], k0, mask))
      decreases shape.bits - level, 1
    {
      placed := table;
      var put := PutInto(table, shape.Hash1(k0, mask), k0);
      if put { return; }
      put := PutInto(table, shape.Hash2(k0, mask), k0);
      if put { return; }
      var k := KickOuts(table, k0);
      ghost var all := shape.Keys(table[..]) + {k};
      shape.FullDoesNotFit(table[..], level, k);
      shape.TopLevelFits(all);
      placed := Rehash(table);
      ghost var mid := level;
      shape.NoneFitsMore(shape.Keys(placed[..]), all, old(level) + 1, mid);
      placed := Place(k, placed);
      assert shape.Keys(placed[..]) == all;
    }

    /** Moves every key to a fresh table of at least twice the size. */
    method Rehash(table: array<nat>) returns (newt: array<nat>)
      requires mask == Ones(level) && shape.Good(table[..], level) && level < shape.bits
      modifies this`mask, this`level
      ensures fresh(newt)
      ensures mask == Ones(level) && shape.Good(newt[..], level)
      ensures shape.Keys(newt[..]) == old(shape.Keys(table[..]))
      ensures old(level) < level && shape.NoneFits(shape.Keys(newt[..]), old(level) + 1, level)
      decreases shape.bits - level, 0
    {
      if mask == 0 {
        mask := 1;
      } else {
        WidenMask(level);
        mask := BitOr(2 * mask, mask);
      }
      level := level + 1;
      newt := new nat[shape.Start(mask + 1)](_ => shape.missing);
      shape.EmptyIsGood(newt[..], level);
      var i := 0;
      while i < table.Length
        invariant i <= table.Length
        invariant fresh(newt) && table[..] == old(table[..])
        invariant mask == Ones(level) && shape.Good(newt[..], level)
        invariant shape.Keys(newt[..]) == shape.Keys(table[..i])
        invariant old(level) < level && shape.NoneFits(shape.Keys(table[..]), old(level) + 1, level)
      {
        shape.NextSlot(table[..], i);
        assert table[..][..i] == table[..i] && table[..][..i + 1] == table[..i + 1];
        if table[i] != shape.missing {
          ghost var before := level;
          newt := Place(table[i], newt);
          shape.NoneFitsMore(shape.Keys(newt[..]), shape.Keys(table[..]), before, level);
        }
        i := i + 1;
      }
    }

    method Count(k: nat) returns (found: bool)
      requires Valid() && k < Pow2(shape.bits)
      ensures k != shape.missing ==> (found <==> k in Contents())
      ensures k == shape.missing ==> (found <==> !shape.PairFull(ht[..], k, mask))
    {
      var s1, s2 := shape.Start(shape.Hash1(k, mask)), shape.Start(shape.Hash2(k, mask));
      shape.BucketInTable(k, level);
      found := false;
      var i := 0;
      while i < shape.slots
        invariant i <= shape.slots
        invariant found <==> exists j {:trigger ht[j]} :: (s1 <= j < s1 + i || s2 <= j < s2 + i) && ht[j] == k
      {
        assert forall j {:trigger ht[j]} :: (s1 <= j < s1 + i + 1 || s2 <= j < s2 + i + 1) <==>
               (s1 <= j < s1 + i || s2 <= j < s2 + i) || j == s1 + i || j == s2 + i;
        found := found || ht[s1 + i] == k || ht[s2 + i] == k;
        i := i + 1;
      }
      assert forall j {:trigger ht[..][j]} :: 0 <= j < ht.Length ==> ht[..][j] == ht[j];
      assert found <==> exists j :: 0 <= j < ht.Length && shape.AtHome(j, k, mask) && ht[..][j] == k;
    }

    /** Adds a key. The table keeps its size if the keys fit it, and otherwise grows to the least
      * doubling that they do fit. */
    method Insert(k: nat)
      requires Valid() && shape.IsKey(k)
      modifies this, ht
      ensures Valid() && (ht == old(ht) || fresh(ht))
      ensures Contents() == old(Contents()) + {k}
      ensures old(level) <= level && shape.Fits(Contents(), level)
      ensures shape.NoneFits(Contents(), old(level), level)
    {
      var known := Count(k);
      if known {
        shape.StoredFits(ht[..], level);
        assert Contents() == Contents() + {k};
        return;
      }
      ht := Place(k, ht);
      sz := sz + 1;
      shape.StoredFits(ht[..], level);
    }

    method Erase(k: nat)
      requires Valid() && shape.IsKey(k)
      modifies this`sz, ht
      ensures Valid()
      ensures Contents() == old(Contents()) - {k}
    {
      var found, i := Find(k);
      if found {
        shape.Emptied(ht[..], level, i);
        ht[i] := shape.missing;
        assert ht[..] == old(ht[..])[i := shape.missing];
        assert k in old(Contents());
        sz := sz - 1;
      }
    }

    /** The slot of a key, in the one home bucket or the other. */
    method Find(k: nat) returns (found: bool, i: nat)
      requires Valid() && shape.IsKey(k)
      ensures found <==> k in ht[..]
      ensures found ==> i < ht.Length && ht[i] == k
    {
      shape.BucketInTable(k, level);
      var s := shape.Start(shape.Hash1(k, mask));
      var pos := FindIn(ht, shape.Hash1(k, mask), k);
      if pos == shape.slots {
        s := shape.Start(shape.Hash2(k, mask));
        pos := FindIn(ht, shape.Hash2(k, mask), k);
      }
      found, i := pos < shape.slots, s + pos;
      if found {
        assert ht[..][i] == k;
      } else {
        shape.NotAtHome(ht[..], level, k);
      }
    }

    /** `operator==`: same size, and every key of the other set is here. */
    method SameAs(other: HashSet) returns (same: bool)
      requires Valid() && other.Valid() && shape == other.shape
      ensures same <==> Contents() == other.Contents()
    {
      if other.sz != sz { return false; }
      same := HoldsAllOf(other);
      if same { SubsetOfSameSize(other.Contents(), Contents()); }
    }

    method HoldsAllOf(other: HashSet) returns (all: bool)
      requires Valid() && other.Valid() && shape == other.shape
      ensures all <==> other.Contents() <= Contents()
    {
      ghost var t := other.ht[..];
      var it := new ConstIterator(other, 0);
      shape.SkipEmpty(t, 0);
      while it.offset != other.ht.Length
        invariant it.Valid() && it.container == other
        invariant shape.Keys(t[..it.offset]) <= Contents()
        decreases other.ht.Length - it.offset
      {
        var x := it.Deref();
        var here := Count(x);
        if !here { return false; }
        shape.NextSlot(t, it.offset);
        shape.SkipEmpty(t, it.offset + 1);
        it.Advance();
      }
      assert t[..it.offset] == t;
      all := true;
    }

    /** Walks the set from `begin()` to `end()`. */
    method Elements() returns (xs: seq<nat>)
      requires Valid()
      ensures Lists(xs, Contents())
    {
      ghost var t := ht[..];
      xs := [];
      var it := new ConstIterator(this, 0);
      shape.SkipEmpty(t, 0);
      while it.offset != ht.Length
        invariant it.Valid() && it.container == this
        invariant Lists(xs, shape.Keys(t[..it.offset]))
        decreases ht.Length - it.offset
      {
        var x := it.Deref();
        shape.WalkOn(t, it.offset, xs);
        xs := xs + [x];
        it.Advance();
      }
      assert t[..it.offset] == t;
    }
  }

  class ConstIterator {
    const container: HashSet
    var offset: nat

    ghost predicate Valid()
      reads this, container, container.ht
    {
      && offset <= container.ht.Length
      && (offset < container.ht.Length ==> container.ht[offset] != container.shape.missing)
    }

    constructor (container: HashSet, offset_: nat)
      requires offset_ <= container.ht.Length
      ensures this.container == container && Valid()
      ensures offset == container.shape.NextLive(container.ht[..], offset_)
    {
      this.container := container;
      var o := offset_;
      while o != container.ht.Length && container.ht[o] == container.shape.missing
        invariant o <= container.ht.Length
        invariant container.shape.NextLive(container.ht[..], o) == container.shape.NextLive(container.ht[..], offset_)
      {
        o := o + 1;
      }
      offset := o;
    }

    /** The pre-increment. */
    method Advance()
      requires Valid() && offset < container.ht.Length
      modifies this
      ensures Valid()
      ensures offset == container.shape.NextLive(container.ht[..], old(offset) + 1)
    {
      offset := offset + 1;
      while offset != container.ht.Length && container.ht[offset] == container.shape.missing
        invariant offset <= container.ht.Length
        invariant container.shape.NextLive(container.ht[..], offset) == container.shape.NextLive(container.ht[..], old(offset) + 1)
      {
        offset := offset + 1;
      }
    }

    method Deref() returns (x: nat)
      requires Valid() && offset < container.ht.Length
      ensures x == container.ht[offset] && x in container.Contents()
    {
      x := container.ht[offset];
    }
  }
}

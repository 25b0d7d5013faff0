/**
  The lock-free map from thread ids to implicit producers (`get_or_add_implicit_producer`): a chain
  of linear-probe tables, each at least twice as large as the one before it, into which entries are
  copied forward lazily.

  Memory allocation succeeds and thread-exit support is off, so no producer is ever recycled.  Every
  access to shared memory is one step; a thread's id is its index.  A table is linked by a single
  store, so an unlinked table does not appear in the state.
*/
module ProducerHash {
  import opened Arith

  datatype Key = Free | Id(thread: nat)

  datatype Value = Unset | Producer(id: nat)

  datatype Table = Table(keys: seq<Key>, values: seq<Value>)

  /** `main` is the table a thread took for the current one; it may be out of date. */
  datatype Pc =
    | Idle
    | Start
    | Probe(main: nat, table: nat, i: nat)
    | Found(main: nat, table: nat, slot: nat)
    | Count(main: nat)
    | Test(main: nat, ticket: nat)
    | TryLock(main: nat, ticket: nat)
    | Reload(ticket: nat)
    | Grow(main: nat, ticket: nat)
    | Unlock(main: nat, ticket: nat)
    | Room(main: nat, ticket: nat)
    | Refresh(ticket: nat)
    | Create(main: nat)
    | Place(main: nat, value: Value, i: nat)
    | PlaceCas(main: nat, value: Value, i: nat)
    | PlaceValue(main: nat, value: Value, slot: nat)

  /** `hashes[t]` is the hash of thread id t; table j + 1 has table j for its predecessor. */
  datatype State = State(hashes: seq<nat>, tables: seq<Table>, count: nat, resizing: bool, made: nat, pcs: seq<Pc>)

  datatype Action = Call(thread: nat) | Go(thread: nat)

  datatype Event = Silent | Returned(thread: nat, value: Value)

  function EmptyTable(capacity: nat): Table {
    Table(seq(capacity, _ => Free), seq(capacity, _ => Unset))
  }

  function Init(hashes: seq<nat>, capacity: nat): State {
    State(hashes, [EmptyTable(capacity)], 0, false, 0, seq(|hashes|, _ => Idle))
  }

  function Capacity(s: State, table: nat): nat
    requires table < |s.tables|
  {
    |s.tables[table].keys|
  }

  /** The slot probed after i unsuccessful probes. */
  function Slot(hash: nat, capacity: nat, i: nat): (slot: nat)
    requires capacity > 0
    ensures slot < capacity
  {
    Wrap(hash + i, capacity)
  }

  /** A table takes a new entry as long as its ticket is below three quarters of the capacity. */
  function Limit(capacity: nat): nat {
    capacity / 2 + capacity / 4
  }

  /** Doubling until the ticket is below half of the capacity. */
  function Enlarged(capacity: nat, ticket: nat): (c: nat)
    requires capacity > 0
    ensures c >= capacity && ticket < c / 2 && (c > capacity ==> ticket >= c / 4)
    decreases 2 * ticket + 2 - capacity
  {
    if ticket < capacity / 2 then capacity else Enlarged(2 * capacity, ticket)
  }

  /** The tables and slots a program counter names exist; this holds in every reachable state. */
  predicate InRange(s: State, t: nat) {
    && t < |s.pcs| == |s.hashes|
    && s.tables != []
    && (forall j :: 0 <= j < |s.tables| ==> |s.tables[j].values| == Capacity(s, j) > 0)
    && match s.pcs[t]
       case Probe(_, table, _) => table < |s.tables|
       case Found(_, table, slot) => table < |s.tables| && slot < Capacity(s, table)
       case Test(m, _) => m < |s.tables|
       case Grow(m, _) => m < |s.tables|
       case Room(m, _) => m < |s.tables|
       case Place(m, _, _) => m < |s.tables|
       case PlaceCas(m, _, _) => m < |s.tables|
       case PlaceValue(m, _, slot) => m < |s.tables| && slot < Capacity(s, m)
       case _ => true
  }

  predicate Enabled(s: State, a: Action) {
    InRange(s, a.thread) && (a.Call? <==> s.pcs[a.thread].Idle?)
  }

  function At(s: State, t: nat, pc: Pc): State
    requires t < |s.pcs|
  {
    s.(pcs := s.pcs[t := pc])
  }

  function SetKey(s: State, table: nat, slot: nat, t: nat): State
    requires table < |s.tables| && slot < Capacity(s, table)
  {
    s.(tables := s.tables[table := s.tables[table].(keys := s.tables[table].keys[slot := Id(t)])])
  }

  function SetValue(s: State, table: nat, slot: nat, v: Value): State
    requires table < |s.tables| && slot < |s.tables[table].values|
  {
    s.(tables := s.tables[table := s.tables[table].(values := s.tables[table].values[slot := v])])
  }

  /** One access of thread t. */
  function Next(s: State, t: nat): State
    requires InRange(s, t)
  {
    match s.pcs[t]
    case Idle => At(s, t, Start)
    case Start => At(s, t, Probe(|s.tables| - 1, |s.tables| - 1, 0))
    case Probe(m, table, i) =>
      var slot := Slot(s.hashes[t], Capacity(s, table), i);
      var key := s.tables[table].keys[slot];
      At(s, t, if key == Id(t) then Found(m, table, slot)
               else if key != Free then Probe(m, table, i + 1)
               else if table > 0 then Probe(m, table - 1, 0)
               else Count(m))
    case Found(m, table, slot) =>
      At(s, t, if table != m then Place(m, s.tables[table].values[slot], 0) else Idle)
    case Count(m) => At(s, t, Test(m, s.count + 1)).(count := s.count + 1)
    case Test(m, ticket) =>
      At(s, t, if ticket >= Capacity(s, m) / 2 then TryLock(m, ticket) else Room(m, ticket))
    case TryLock(m, ticket) =>
      if s.resizing then At(s, t, Room(m, ticket)) else At(s, t, Reload(ticket)).(resizing := true)
    case Reload(ticket) =>
      var m := |s.tables| - 1;
      At(s, t, if ticket >= Capacity(s, m) / 2 then Grow(m, ticket) else Unlock(m, ticket))
    case Grow(m, ticket) =>
      At(s, t, Unlock(|s.tables|, ticket)).(
        tables := s.tables + [EmptyTable(Enlarged(2 * Capacity(s, m), ticket))])
    case Unlock(m, ticket) => At(s, t, Room(m, ticket)).(resizing := false)
    case Room(m, ticket) => At(s, t, if ticket < Limit(Capacity(s, m)) then Create(m) else Refresh(ticket))
    case Refresh(ticket) => At(s, t, Test(|s.tables| - 1, ticket))
    case Create(m) => At(s, t, Place(m, Producer(s.made), 0)).(made := s.made + 1)
    case Place(m, v, i) =>
      At(s, t, if s.tables[m].keys[Slot(s.hashes[t], Capacity(s, m), i)] == Free then PlaceCas(m, v, i) else Place(m, v, i + 1))
    case PlaceCas(m, v, i) =>
      var slot := Slot(s.hashes[t], Capacity(s, m), i);
      if s.tables[m].keys[slot] == Free
      then At(SetKey(s, m, slot, t), t, PlaceValue(m, v, slot))
      else At(s, t, Place(m, v, i + 1))
    case PlaceValue(m, v, slot) => At(SetValue(s, m, slot, v), t, Idle)
  }

  function EventOf(s: State, t: nat): Event
    requires InRange(s, t)
  {
    match s.pcs[t]
    case Found(m, table, slot) => if table == m then Returned(t, s.tables[table].values[slot]) else Silent
    case PlaceValue(m, v, slot) => Returned(t, v)
    case _ => Silent
  }

  ghost predicate IsRun(hashes: seq<nat>, capacity: nat, ss: seq<State>, acts: seq<Action>) {
    && capacity > 0
    && |ss| == |acts| + 1
    && ss[0] == Init(hashes, capacity)
    && forall i {:trigger Happens(ss, acts, i)} :: 0 <= i < |acts| ==> Happens(ss, acts, i)
  }

  ghost predicate Happens(ss: seq<State>, acts: seq<Action>, i: nat) {
    i < |acts| && i + 1 < |ss| && Enabled(ss[i], acts[i]) && ss[i + 1] == Next(ss[i], acts[i].thread)
  }

  // ---------------------------------------------------------------- the invariant

  /** History: the ticket each thread drew (0 for none), its producer, and who holds the resize flag. */
  datatype History = History(tickets: seq<nat>, owned: seq<Value>, locker: nat)

  ghost predicate Absent(keys: seq<Key>, t: nat) {
    forall i :: 0 <= i < |keys| ==> keys[i] != Id(t)
  }

  /** The first d slots on the probe path of a hash are taken. */
  ghost predicate Passed(keys: seq<Key>, hash: nat, d: nat)
    requires keys != []
  {
    forall e: nat :: e < d ==> keys[Slot(hash, |keys|, e)] != Free
  }

  ghost predicate OnPath(keys: seq<Key>, hash: nat, slot: nat)
    requires keys != []
  {
    exists d: nat :: Slot(hash, |keys|, d) == slot && Passed(keys, hash, d)
  }

  /** Every key has a ticket below the limit, sits once, and follows its probe path without a gap. */
  ghost predicate KeysInv(keys: seq<Key>, hashes: seq<nat>, tickets: seq<nat>)
    requires keys != [] && |tickets| == |hashes|
  {
    && (forall i :: 0 <= i < |keys| && keys[i].Id? ==>
          && keys[i].thread < |tickets|
          && 0 < tickets[keys[i].thread] < Limit(|keys|)
          && OnPath(keys, hashes[keys[i].thread], i))
    && (forall i, k :: 0 <= i < k < |keys| && keys[i].Id? ==> keys[i] != keys[k])
  }

  /** A stored value is the producer of the thread it is stored for, unless still to be written. */
  ghost predicate ValuesInv(table: Table, j: nat, owned: seq<Value>, pcs: seq<Pc>)
    requires |table.values| == |table.keys| && |owned| == |pcs|
  {
    forall i {:trigger ValueInv(table, j, owned, pcs, i)} ::
      0 <= i < |table.keys| && table.keys[i].Id? ==> ValueInv(table, j, owned, pcs, i)
  }

  ghost predicate ValueInv(table: Table, j: nat, owned: seq<Value>, pcs: seq<Pc>, i: nat)
    requires i < |table.keys| == |table.values| && table.keys[i].Id? && |owned| == |pcs|
  {
    var t := table.keys[i].thread;
    && t < |pcs|
    && owned[t].Producer?
    && (table.values[i] == owned[t] || pcs[t] == PlaceValue(j, owned[t], i))
  }

  ghost predicate Stored(s: State, t: nat) {
    exists j :: 0 <= j < |s.tables| && !Absent(s.tables[j].keys, t)
  }

  ghost predicate Locking(pc: Pc) {
    pc.Reload? || pc.Grow? || pc.Unlock?
  }

  /** Thread t is in no table from table j onwards. */
  ghost predicate AbsentFrom(s: State, j: nat, t: nat) {
    forall k :: j <= k < |s.tables| ==> Absent(s.tables[k].keys, t)
  }

  ghost predicate ThreadInv(s: State, h: History, pc: Pc, t: nat)
    requires |h.tickets| == |h.owned| == |s.pcs| == |s.hashes| && t < |s.pcs|
    requires forall j :: 0 <= j < |s.tables| ==> |s.tables[j].values| == Capacity(s, j) > 0
  {
    && (h.owned[t].Producer? ==> Stored(s, t) || pc.Place? || pc.PlaceCas?)
    && match pc
       case Probe(m, table, i) =>
         && table <= m < |s.tables|
         && AbsentFrom(s, table + 1, t)
         && i < Capacity(s, table)
         && Passed(s.tables[table].keys, s.hashes[t], i)
         && Missed(s.tables[table].keys, s.hashes[t], i, t)
       case Found(m, table, slot) =>
         && table <= m < |s.tables|
         && AbsentFrom(s, table + 1, t)
         && slot < Capacity(s, table)
         && s.tables[table].keys[slot] == Id(t)
       case Count(m) => m < |s.tables| && AbsentFrom(s, 0, t)
       case Test(m, ticket) => m < |s.tables| && Ticketed(s, h, t, ticket)
       case TryLock(m, ticket) => m < |s.tables| && Ticketed(s, h, t, ticket)
       case Reload(ticket) => Ticketed(s, h, t, ticket)
       case Grow(m, ticket) =>
         m == |s.tables| - 1 && Ticketed(s, h, t, ticket) && ticket >= Capacity(s, m) / 2
       case Unlock(m, ticket) => m < |s.tables| && Ticketed(s, h, t, ticket)
       case Room(m, ticket) => m < |s.tables| && Ticketed(s, h, t, ticket)
       case Refresh(ticket) => Ticketed(s, h, t, ticket)
       case Create(m) =>
         m < |s.tables| && Ticketed(s, h, t, h.tickets[t]) && h.tickets[t] < Limit(Capacity(s, m))
       case Place(m, v, i) => Placing(s, h, t, m, v, i)
       case PlaceCas(m, v, i) => Placing(s, h, t, m, v, i)
       case PlaceValue(m, v, slot) =>
         m < |s.tables| && slot < Capacity(s, m) && s.tables[m].keys[slot] == Id(t) && h.owned[t] == v
       case _ => true
  }

  ghost predicate Missed(keys: seq<Key>, hash: nat, d: nat, t: nat)
    requires keys != []
  {
    forall e: nat :: e < d ==> keys[Slot(hash, |keys|, e)] != Id(t)
  }

  ghost predicate Ticketed(s: State, h: History, t: nat, ticket: nat)
    requires t < |h.tickets|
  {
    AbsentFrom(s, 0, t) && h.tickets[t] == ticket > 0
  }

  ghost predicate Placing(s: State, h: History, t: nat, m: nat, v: Value, i: nat)
    requires t < |h.tickets| == |h.owned| && t < |s.hashes|
    requires forall j :: 0 <= j < |s.tables| ==> Capacity(s, j) > 0
  {
    && m < |s.tables|
    && AbsentFrom(s, m, t)
    && h.owned[t] == v && v.Producer?
    && 0 < h.tickets[t] < Limit(Capacity(s, m))
    && i < Capacity(s, m)
    && Passed(s.tables[m].keys, s.hashes[t], i)
  }

  /** The resize flag keeps all threads but one out of the code that links a new table. */
  ghost predicate LockInv(s: State, h: History) {
    forall t :: 0 <= t < |s.pcs| && Locking(s.pcs[t]) ==> s.resizing && h.locker == t
  }

  ghost predicate HistoryInv(s: State, h: History) {
    && |h.tickets| == |h.owned| == |s.pcs|
    && (forall t :: 0 <= t < |h.tickets| ==> h.tickets[t] <= s.count)
    && (forall t, u :: 0 <= t < u < |h.tickets| && h.tickets[t] > 0 ==> h.tickets[t] != h.tickets[u])
    && (forall t :: 0 <= t < |h.owned| && h.owned[t].Producer? ==> h.owned[t].id < s.made)
    && (forall t, u :: 0 <= t < u < |h.owned| && h.owned[t].Producer? ==> h.owned[t] != h.owned[u])
  }

  ghost predicate TablesInv(s: State) {
    && s.tables != []
    && (forall j :: 0 <= j < |s.tables| ==> |s.tables[j].values| == Capacity(s, j) > 0)
    && (forall j, k :: 0 <= j < k < |s.tables| ==> Capacity(s, j) <= Capacity(s, k))
  }

  ghost predicate TableInv(s: State, h: History, j: nat)
    requires j < |s.tables| && s.tables[j].keys != [] && |s.tables[j].values| == |s.tables[j].keys|
    requires |h.tickets| == |h.owned| == |s.pcs| == |s.hashes|
  {
    && KeysInv(s.tables[j].keys, s.hashes, h.tickets)
    && ValuesInv(s.tables[j], j, h.owned, s.pcs)
  }

  ghost predicate Inv(s: State, h: History) {
    && |s.pcs| == |s.hashes|
    && TablesInv(s)
    && HistoryInv(s, h)
    && LockInv(s, h)
    && (forall j {:trigger TableInv(s, h, j)} :: 0 <= j < |s.tables| ==> TableInv(s, h, j))
    && (forall t {:trigger ThreadInv(s, h, s.pcs[t], t)} :: 0 <= t < |s.pcs| ==> ThreadInv(s, h, s.pcs[t], t))
  }

  // ---------------------------------------------------------------- one table

  /** Distinct positive numbers below n are fewer than n. */
  lemma {:induction false} Pigeonhole(xs: seq<nat>, n: nat)
    requires forall i :: 0 <= i < |xs| ==> 0 < xs[i] < n
    requires forall i, k :: 0 <= i < k < |xs| ==> xs[i] != xs[k]
    ensures |xs| < n || xs == []
  {
    if xs != [] {
      assert 0 < xs[0] < n;
      if i :| 0 <= i < |xs| && xs[i] == n - 1 {
        var ys := xs[..i] + xs[i + 1..];
        assert forall k :: 0 <= k < |ys| ==> ys[k] == xs[if k < i then k else k + 1];
        Pigeonhole(ys, n - 1);
      } else {
        Pigeonhole(xs, n - 1);
      }
    }
  }

  ghost predicate Injective(tickets: seq<nat>) {
    forall t, u :: 0 <= t < u < |tickets| && tickets[t] > 0 ==> tickets[t] != tickets[u]
  }

  /** Tickets are unique and below three quarters of the capacity, so some slot stays free. */
  lemma FreeSlot(keys: seq<Key>, hashes: seq<nat>, tickets: seq<nat>) returns (slot: nat)
    requires keys != [] && |tickets| == |hashes|
    requires KeysInv(keys, hashes, tickets) && Injective(tickets)
    ensures slot < |keys| && keys[slot] == Free
  {
    if i :| 0 <= i < |keys| && keys[i] == Free {
      slot := i;
    } else {
      var xs := seq(|keys|, i requires 0 <= i < |keys| => tickets[keys[i].thread]);
      forall i, k | 0 <= i < k < |xs| ensures xs[i] != xs[k] {
        assert keys[i] != keys[k];
      }
      Pigeonhole(xs, Limit(|keys|));
      assert false;
    }
  }

  /** Every slot comes up among the first |keys| probes. */
  lemma SlotComesUp(hash: nat, capacity: nat, slot: nat) returns (e: nat)
    requires slot < capacity
    ensures e < capacity && Slot(hash, capacity, e) == slot
  {
    var q, r := hash / capacity, hash % capacity;
    e := if slot >= r then slot - r else slot + capacity - r;
    assert hash + e == (if slot >= r then q else q + 1) * capacity + slot by {
      assert hash == q * capacity + r;
      assert (q + 1) * capacity == q * capacity + capacity;
    }
    ModUnique(hash + e, if slot >= r then q else q + 1, slot, capacity);
    WrapIsRemainder(hash + e, capacity);
  }

  /** A probe never passes as many slots as the table has. */
  lemma ProbeInBounds(keys: seq<Key>, hashes: seq<nat>, tickets: seq<nat>, hash: nat, d: nat)
    requires keys != [] && |tickets| == |hashes|
    requires KeysInv(keys, hashes, tickets) && Injective(tickets)
    requires Passed(keys, hash, d)
    ensures d < |keys|
  {
    var slot := FreeSlot(keys, hashes, tickets);
    var e := SlotComesUp(hash, |keys|, slot);
  }

  /** A probe that meets a free slot shows that the id is not in the table. */
  lemma MissIsAbsent(keys: seq<Key>, hashes: seq<nat>, tickets: seq<nat>, t: nat, d: nat)
    requires keys != [] && |tickets| == |hashes| && t < |hashes|
    requires KeysInv(keys, hashes, tickets)
    requires Missed(keys, hashes[t], d, t)
    requires keys[Slot(hashes[t], |keys|, d)] == Free
    ensures Absent(keys, t)
  {
    forall i | 0 <= i < |keys| ensures keys[i] != Id(t) {
      if keys[i] == Id(t) {
        assert false;
      }
    }
  }

  /** Some free slot was taken by thread t, or nothing changed. */
  ghost predicate KeysGrow(a: seq<Key>, b: seq<Key>, t: nat) {
    && |a| == |b|
    && forall i :: 0 <= i < |a| ==> b[i] == a[i] || (a[i] == Free && b[i] == Id(t))
  }

  lemma InsertKeepsKeys(keys: seq<Key>, hashes: seq<nat>, tickets: seq<nat>, t: nat, d: nat)
    requires keys != [] && |tickets| == |hashes| && t < |hashes|
    requires KeysInv(keys, hashes, tickets)
    requires Absent(keys, t) && 0 < tickets[t] < Limit(|keys|)
    requires Passed(keys, hashes[t], d) && keys[Slot(hashes[t], |keys|, d)] == Free
    ensures var keys' := keys[Slot(hashes[t], |keys|, d) := Id(t)];
      KeysInv(keys', hashes, tickets) && KeysGrow(keys, keys', t)
  {
    var slot := Slot(hashes[t], |keys|, d);
    var keys' := keys[slot := Id(t)];
    forall i | 0 <= i < |keys'| && keys'[i].Id? ensures OnPath(keys', hashes[keys'[i].thread], i) {
      var hash := hashes[keys'[i].thread];
      if i == slot {
        assert Passed(keys', hash, d);
      } else {
        var e: nat :| Slot(hash, |keys|, e) == i && Passed(keys, hash, e);
        assert Passed(keys', hash, e);
      }
    }
  }

  // ---------------------------------------------------------------- one step

  /** What every step of thread t leaves intact for the others. */
  ghost predicate Grows(s: State, s': State, t: nat) {
    && s'.hashes == s.hashes && |s'.pcs| == |s.pcs|
    && |s.tables| <= |s'.tables|
    && (forall j :: 0 <= j < |s.tables| ==> KeysGrow(s.tables[j].keys, s'.tables[j].keys, t))
    && (forall j, u: nat :: |s.tables| <= j < |s'.tables| ==> Absent(s'.tables[j].keys, u))
  }

  ghost predicate SameButFor(h: History, h': History, t: nat) {
    && |h'.tickets| == |h.tickets| && |h'.owned| == |h.owned|
    && forall u :: 0 <= u < |h.tickets| == |h.owned| && u != t ==>
         h'.tickets[u] == h.tickets[u] && h'.owned[u] == h.owned[u]
  }

  lemma StillAbsent(s: State, s': State, t: nat, j: nat, u: nat)
    requires Grows(s, s', t) && u != t && AbsentFrom(s, j, u)
    ensures AbsentFrom(s', j, u)
  {
    forall k | j <= k < |s'.tables| ensures Absent(s'.tables[k].keys, u) {
      if k < |s.tables| {
        assert Absent(s.tables[k].keys, u);
        assert KeysGrow(s.tables[k].keys, s'.tables[k].keys, t);
      }
    }
  }

  lemma StillStored(s: State, s': State, t: nat, u: nat)
    requires Grows(s, s', t) && Stored(s, u)
    ensures Stored(s', u)
  {
    var j :| 0 <= j < |s.tables| && !Absent(s.tables[j].keys, u);
    assert KeysGrow(s.tables[j].keys, s'.tables[j].keys, t);
  }

  ghost predicate Sized(s: State, h: History) {
    && |h.tickets| == |h.owned| == |s.pcs| == |s.hashes|
    && s.tables != []
    && forall j :: 0 <= j < |s.tables| ==> |s.tables[j].values| == Capacity(s, j) > 0
  }

  lemma OtherThread(s: State, h: History, s': State, h': History, pc: Pc, t: nat, u: nat)
    requires Sized(s, h) && Sized(s', h') && u < |s.pcs| && u != t
    requires Grows(s, s', t) && SameButFor(h, h', t)
    requires pc.Grow? ==> |s'.tables| == |s.tables|
    requires ThreadInv(s, h, pc, u)
    ensures ThreadInv(s', h', pc, u)
  {
    if h.owned[u].Producer? && Stored(s, u) {
      StillStored(s, s', t, u);
    }
    match pc
    case Idle =>
    case Start =>
    case Probe(m, table, i) =>
      StillAbsent(s, s', t, table + 1, u);
      StillPassed(s.tables[table].keys, s'.tables[table].keys, s.hashes[u], i, t, u);
    case Found(m, table, slot) =>
      StillAbsent(s, s', t, table + 1, u);
      assert KeysGrow(s.tables[table].keys, s'.tables[table].keys, t);
    case Place(m, v, i) => StillPlacing(s, h, s', h', t, u, m, v, i);
    case PlaceCas(m, v, i) => StillPlacing(s, h, s', h', t, u, m, v, i);
    case PlaceValue(m, v, slot) =>
      assert KeysGrow(s.tables[m].keys, s'.tables[m].keys, t);
    case Create(m) =>
      StillAbsent(s, s', t, 0, u);
      assert KeysGrow(s.tables[m].keys, s'.tables[m].keys, t);
    case _ => StillAbsent(s, s', t, 0, u);
  }

  lemma StillPassed(a: seq<Key>, b: seq<Key>, hash: nat, d: nat, t: nat, u: nat)
    requires a != [] && KeysGrow(a, b, t) && u != t
    ensures Passed(a, hash, d) ==> Passed(b, hash, d)
    ensures Missed(a, hash, d, u) ==> Missed(b, hash, d, u)
  {
  }

  lemma StillPlacing(s: State, h: History, s': State, h': History, t: nat, u: nat, m: nat, v: Value, i: nat)
    requires Sized(s, h) && Sized(s', h') && u < |s.pcs| && u != t
    requires Grows(s, s', t) && SameButFor(h, h', t)
    requires Placing(s, h, u, m, v, i)
    ensures Placing(s', h', u, m, v, i)
  {
    StillAbsent(s, s', t, m, u);
    StillPassed(s.tables[m].keys, s'.tables[m].keys, s.hashes[u], i, t, u);
  }

  /** A step of thread t keeps the invariant, once it keeps the tables, the history and its own part. */
  lemma LocalStep(s: State, h: History, s': State, h': History, t: nat, pc: Pc)
    requires Inv(s, h) && t < |s.pcs|
    requires Sized(s', h') && TablesInv(s') && HistoryInv(s', h')
    requires s'.pcs == s.pcs[t := pc]
    requires Grows(s, s', t) && SameButFor(h, h', t)
    requires forall j {:trigger TableInv(s', h', j)} :: 0 <= j < |s'.tables| ==> TableInv(s', h', j)
    requires LockInv(s', h')
    requires |s'.tables| == |s.tables| || Locking(s.pcs[t])
    requires ThreadInv(s', h', pc, t)
    ensures Inv(s', h')
  {
    forall u | 0 <= u < |s'.pcs| ensures ThreadInv(s', h', s'.pcs[u], u) {
      if u != t {
        assert ThreadInv(s, h, s.pcs[u], u);
        OtherThread(s, h, s', h', s.pcs[u], t, u);
      }
    }
  }

  // ---------------------------------------------------------------- the steps

  /** A step that only moves the program counter. */
  lemma PcStep(s: State, h: History, t: nat, pc: Pc)
    requires Inv(s, h) && t < |s.pcs| && !s.pcs[t].PlaceValue?
    requires Locking(pc) <==> Locking(s.pcs[t])
    requires ThreadInv(s, h, pc, t)
    ensures Inv(At(s, t, pc), h)
  {
    var s' := At(s, t, pc);
    forall j | 0 <= j < |s'.tables| ensures TableInv(s', h, j) {
      assert TableInv(s, h, j);
      ValuesElsewhere(s.tables[j], j, h.owned, s.pcs, t, pc);
    }
    forall u | 0 <= u < |s'.pcs| ensures ThreadInv(s', h, s'.pcs[u], u) {
      assert u != t ==> ThreadInv(s, h, s.pcs[u], u);
      SameMemory(s, s', h, s'.pcs[u], u);
    }
  }

  lemma SameMemory(s: State, s': State, h: History, pc: Pc, u: nat)
    requires Sized(s, h) && Sized(s', h) && u < |s.pcs|
    requires s'.tables == s.tables && s'.hashes == s.hashes && s'.resizing == s.resizing
    requires ThreadInv(s, h, pc, u)
    ensures ThreadInv(s', h, pc, u)
  {
    assert Stored(s, u) ==> Stored(s', u);
  }

  /** What the prober learns from the key it reads. */
  lemma ProbeLearns(s: State, h: History, t: nat)
    requires Sized(s, h) && t < |s.pcs| && s.pcs[t].Probe? && InRange(s, t)
    requires ThreadInv(s, h, s.pcs[t], t)
    requires KeysInv(s.tables[s.pcs[t].table].keys, s.hashes, h.tickets) && Injective(h.tickets)
    ensures ThreadInv(s, h, Next(s, t).pcs[t], t)
  {
    var Probe(m, table, i) := s.pcs[t];
    var keys := s.tables[table].keys;
    var slot := Slot(s.hashes[t], |keys|, i);
    if keys[slot] == Free {
      MissIsAbsent(keys, s.hashes, h.tickets, t, i);
      assert AbsentFrom(s, table, t);
    } else if keys[slot] != Id(t) {
      assert Passed(keys, s.hashes[t], i + 1);
      ProbeInBounds(keys, s.hashes, h.tickets, s.hashes[t], i + 1);
    }
  }

  lemma StepProbe(s: State, h: History, t: nat)
    requires Inv(s, h) && t < |s.pcs| && s.pcs[t].Probe?
    ensures InRange(s, t) && Inv(Next(s, t), h)
  {
    assert ThreadInv(s, h, s.pcs[t], t);
    assert TableInv(s, h, s.pcs[t].table);
    ProbeLearns(s, h, t);
    PcStep(s, h, t, Next(s, t).pcs[t]);
  }

  lemma StepFound(s: State, h: History, t: nat)
    requires Inv(s, h) && t < |s.pcs| && s.pcs[t].Found?
    ensures InRange(s, t) && Inv(Next(s, t), h)
    ensures s.tables[s.pcs[t].table].values[s.pcs[t].slot] == h.owned[t]
  {
    assert ThreadInv(s, h, s.pcs[t], t);
    var Found(m, table, slot) := s.pcs[t];
    assert TableInv(s, h, table) && ValueInv(s.tables[table], table, h.owned, s.pcs, slot);
    assert s.tables[table].values[slot] == h.owned[t];
    assert Capacity(s, table) <= Capacity(s, m);
    assert Stored(s, t);
    PcStep(s, h, t, Next(s, t).pcs[t]);
  }

  /** What happens to the history of a thread is of no concern to a table it is not in. */
  lemma TableWithout(s: State, h: History, s': State, h': History, j: nat, t: nat)
    requires Sized(s, h) && Sized(s', h') && j < |s.tables| && t < |s.pcs| == |s'.pcs|
    requires s'.tables == s.tables && s'.hashes == s.hashes
    requires SameButFor(h, h', t) && (forall u :: 0 <= u < |s.pcs| && u != t ==> s'.pcs[u] == s.pcs[u])
    requires Absent(s.tables[j].keys, t)
    requires TableInv(s, h, j)
    ensures TableInv(s', h', j)
  {
    var table := s.tables[j];
    forall i | 0 <= i < |table.keys| && table.keys[i].Id? ensures ValueInv(table, j, h'.owned, s'.pcs, i) {
      assert ValueInv(table, j, h.owned, s.pcs, i);
    }
  }

  lemma StepCount(s: State, h: History, t: nat) returns (h': History)
    requires Inv(s, h) && t < |s.pcs| && s.pcs[t].Count?
    ensures InRange(s, t) && Inv(Next(s, t), h') && h'.owned == h.owned
  {
    assert ThreadInv(s, h, s.pcs[t], t);
    var s' := Next(s, t);
    h' := h.(tickets := h.tickets[t := s.count + 1]);
    forall j | 0 <= j < |s'.tables|
      ensures TableInv(s', h', j)
    {
      assert TableInv(s, h, j);
      TableWithout(s, h, s', h', j, t);
    }
    assert AbsentFrom(s', 0, t);
    LocalStep(s, h, s', h', t, Test(s.pcs[t].main, s.count + 1));
  }

  lemma StepTryLock(s: State, h: History, t: nat) returns (h': History)
    requires Inv(s, h) && t < |s.pcs| && s.pcs[t].TryLock?
    ensures InRange(s, t) && Inv(Next(s, t), h') && h'.owned == h.owned
  {
    assert ThreadInv(s, h, s.pcs[t], t);
    var s' := Next(s, t);
    h' := h;
    if s.resizing {
      PcStep(s, h, t, s'.pcs[t]);
    } else {
      h' := h.(locker := t);
      SameTables(s, h, s', h', t);
      assert AbsentFrom(s', 0, t);
      LocalStep(s, h, s', h', t, Reload(s.pcs[t].ticket));
    }
  }

  lemma SameTables(s: State, h: History, s': State, h': History, t: nat)
    requires Inv(s, h) && t < |s.pcs| == |s'.pcs|
    requires s'.tables == s.tables && s'.hashes == s.hashes && s'.pcs == s.pcs[t := s'.pcs[t]]
    requires h'.owned == h.owned && h'.tickets == h.tickets && !s.pcs[t].PlaceValue?
    ensures forall j {:trigger TableInv(s', h', j)} :: 0 <= j < |s'.tables| ==> TableInv(s', h', j)
    ensures Grows(s, s', t)
  {
    forall j | 0 <= j < |s'.tables|
      ensures TableInv(s', h', j)
    {
      assert TableInv(s, h, j);
      ValuesElsewhere(s.tables[j], j, h.owned, s.pcs, t, s'.pcs[t]);
    }
  }

  lemma StepUnlock(s: State, h: History, t: nat)
    requires Inv(s, h) && t < |s.pcs| && s.pcs[t].Unlock?
    ensures InRange(s, t) && Inv(Next(s, t), h)
  {
    assert ThreadInv(s, h, s.pcs[t], t);
    var s' := Next(s, t);
    SameTables(s, h, s', h, t);
    assert AbsentFrom(s', 0, t);
    LocalStep(s, h, s', h, t, Room(s.pcs[t].main, s.pcs[t].ticket));
  }

  /** A table is linked: an empty one satisfies every table invariant. */
  lemma TablesGrow(s: State, h: History, t: nat)
    requires Sized(s, h) && TablesInv(s) && t < |s.pcs| && InRange(s, t)
    requires s.pcs[t].Grow? && s.pcs[t].main == |s.tables| - 1
    requires forall j {:trigger TableInv(s, h, j)} :: 0 <= j < |s.tables| ==> TableInv(s, h, j)
    ensures var s' := Next(s, t);
      && Sized(s', h) && TablesInv(s') && Grows(s, s', t)
      && (forall j {:trigger TableInv(s', h, j)} :: 0 <= j < |s'.tables| ==> TableInv(s', h, j))
  {
    var s' := Next(s, t);
    forall j | 0 <= j < |s'.tables|
      ensures TableInv(s', h, j)
    {
      if j < |s.tables| {
        assert TableInv(s, h, j);
        ValuesElsewhere(s.tables[j], j, h.owned, s.pcs, t, s'.pcs[t]);
      }
    }
  }

  lemma ValuesElsewhere(table: Table, j: nat, owned: seq<Value>, pcs: seq<Pc>, t: nat, pc: Pc)
    requires |table.values| == |table.keys| && |owned| == |pcs| && t < |pcs|
    requires ValuesInv(table, j, owned, pcs)
    requires pcs[t].PlaceValue? ==> pcs[t].main != j
    ensures ValuesInv(table, j, owned, pcs[t := pc])
  {
    forall i | 0 <= i < |table.keys| && table.keys[i].Id? ensures ValueInv(table, j, owned, pcs[t := pc], i) {
      assert ValueInv(table, j, owned, pcs, i);
    }
  }

  lemma StepGrow(s: State, h: History, t: nat)
    requires Inv(s, h) && t < |s.pcs| && s.pcs[t].Grow?
    ensures InRange(s, t) && Inv(Next(s, t), h)
  {
    assert ThreadInv(s, h, s.pcs[t], t);
    var s' := Next(s, t);
    TablesGrow(s, h, t);
    assert AbsentFrom(s', 0, t);
    LocalStep(s, h, s', h, t, Unlock(|s.tables|, s.pcs[t].ticket));
  }

  lemma CreateKeepsTables(s: State, h: History, t: nat)
    requires Inv(s, h) && t < |s.pcs| && s.pcs[t].Create? && InRange(s, t)
    ensures var s', h' := Next(s, t), h.(owned := h.owned[t := Producer(s.made)]);
      Sized(s', h') && forall j {:trigger TableInv(s', h', j)} :: 0 <= j < |s'.tables| ==> TableInv(s', h', j)
  {
    assert ThreadInv(s, h, s.pcs[t], t);
    var s', h' := Next(s, t), h.(owned := h.owned[t := Producer(s.made)]);
    forall j | 0 <= j < |s'.tables|
      ensures TableInv(s', h', j)
    {
      assert TableInv(s, h, j);
      TableWithout(s, h, s', h', j, t);
    }
  }

  lemma StepCreate(s: State, h: History, t: nat) returns (h': History)
    requires Inv(s, h) && t < |s.pcs| && s.pcs[t].Create?
    ensures InRange(s, t) && Inv(Next(s, t), h')
    ensures h.owned[t] == Unset && h'.owned == h.owned[t := Producer(s.made)]
  {
    assert ThreadInv(s, h, s.pcs[t], t);
    var s' := Next(s, t);
    h' := h.(owned := h.owned[t := Producer(s.made)]);
    CreateKeepsTables(s, h, t);
    assert AbsentFrom(s', s.pcs[t].main, t);
    LocalStep(s, h, s', h', t, Place(s.pcs[t].main, Producer(s.made), 0));
  }

  lemma StepPlace(s: State, h: History, t: nat)
    requires Inv(s, h) && t < |s.pcs|
    requires s.pcs[t].Place? || s.pcs[t].PlaceCas?
    ensures InRange(s, t) && Inv(Next(s, t), h)
  {
    assert ThreadInv(s, h, s.pcs[t], t);
    var m, i := s.pcs[t].main, s.pcs[t].i;
    var keys := s.tables[m].keys;
    assert TableInv(s, h, m);
    if keys[Slot(s.hashes[t], |keys|, i)] == Free && s.pcs[t].PlaceCas? {
      StepPlaceCas(s, h, t);
    } else {
      if keys[Slot(s.hashes[t], |keys|, i)] != Free {
        ProbeInBounds(keys, s.hashes, h.tickets, s.hashes[t], i + 1);
      }
      PcStep(s, h, t, Next(s, t).pcs[t]);
    }
  }

  lemma TablesPlaceCas(s: State, h: History, t: nat)
    requires Sized(s, h) && TablesInv(s) && t < |s.pcs| && InRange(s, t) && s.pcs[t].PlaceCas?
    requires var PlaceCas(m, v, i) := s.pcs[t];
      && Placing(s, h, t, m, v, i)
      && s.tables[m].keys[Slot(s.hashes[t], Capacity(s, m), i)] == Free
    requires forall j {:trigger TableInv(s, h, j)} :: 0 <= j < |s.tables| ==> TableInv(s, h, j)
    ensures var s' := Next(s, t);
      && Sized(s', h) && TablesInv(s') && Grows(s, s', t)
      && (forall j {:trigger TableInv(s', h, j)} :: 0 <= j < |s'.tables| ==> TableInv(s', h, j))
  {
    var s' := Next(s, t);
    var PlaceCas(m, v, i) := s.pcs[t];
    assert TableInv(s, h, m);
    InsertKeepsKeys(s.tables[m].keys, s.hashes, h.tickets, t, i);
    forall j | 0 <= j < |s'.tables|
      ensures TableInv(s', h, j)
    {
      assert TableInv(s, h, j);
      ValuesElsewhere(s.tables[j], j, h.owned, s.pcs, t, s'.pcs[t]);
      if j == m {
        ValuesInserted(s.tables[m], m, h.owned, s'.pcs, t, Slot(s.hashes[t], Capacity(s, m), i));
      }
    }
  }

  lemma ValuesInserted(table: Table, j: nat, owned: seq<Value>, pcs: seq<Pc>, t: nat, slot: nat)
    requires |table.values| == |table.keys| && |owned| == |pcs| && t < |pcs| && slot < |table.keys|
    requires ValuesInv(table, j, owned, pcs)
    requires owned[t].Producer? && pcs[t] == PlaceValue(j, owned[t], slot)
    ensures ValuesInv(table.(keys := table.keys[slot := Id(t)]), j, owned, pcs)
  {
    var table' := table.(keys := table.keys[slot := Id(t)]);
    forall i | 0 <= i < |table'.keys| && table'.keys[i].Id? ensures ValueInv(table', j, owned, pcs, i) {
      if i != slot {
        assert ValueInv(table, j, owned, pcs, i);
      }
    }
  }

  lemma StepPlaceCas(s: State, h: History, t: nat)
    requires Inv(s, h) && t < |s.pcs| && s.pcs[t].PlaceCas? && InRange(s, t)
    requires var PlaceCas(m, v, i) := s.pcs[t];
      s.tables[m].keys[Slot(s.hashes[t], Capacity(s, m), i)] == Free
    ensures Inv(Next(s, t), h)
  {
    assert ThreadInv(s, h, s.pcs[t], t);
    var s' := Next(s, t);
    var PlaceCas(m, v, i) := s.pcs[t];
    TablesPlaceCas(s, h, t);
    StoredAt(s', m, Slot(s.hashes[t], Capacity(s, m), i), t);
    LocalStep(s, h, s', h, t, PlaceValue(m, v, Slot(s.hashes[t], Capacity(s, m), i)));
  }

  lemma StoredAt(s: State, j: nat, slot: nat, t: nat)
    requires j < |s.tables| && slot < Capacity(s, j) && s.tables[j].keys[slot] == Id(t)
    ensures Stored(s, t)
  {
  }

  lemma TablesPlaceValue(s: State, h: History, t: nat)
    requires Sized(s, h) && TablesInv(s) && t < |s.pcs| && InRange(s, t) && s.pcs[t].PlaceValue?
    requires s.tables[s.pcs[t].main].keys[s.pcs[t].slot] == Id(t) && h.owned[t] == s.pcs[t].value
    requires forall j {:trigger TableInv(s, h, j)} :: 0 <= j < |s.tables| ==> TableInv(s, h, j)
    ensures var s' := Next(s, t);
      && Sized(s', h) && TablesInv(s') && Grows(s, s', t)
      && (forall j {:trigger TableInv(s', h, j)} :: 0 <= j < |s'.tables| ==> TableInv(s', h, j))
  {
    var s' := Next(s, t);
    var PlaceValue(m, v, slot) := s.pcs[t];
    forall j | 0 <= j < |s'.tables|
      ensures TableInv(s', h, j)
    {
      assert TableInv(s, h, j);
      if j == m {
        ValuesWritten(s.tables[m], m, h.owned, s.pcs, t, slot, s'.pcs[t]);
      } else {
        ValuesElsewhere(s.tables[j], j, h.owned, s.pcs, t, s'.pcs[t]);
      }
    }
  }

  lemma ValuesWritten(table: Table, j: nat, owned: seq<Value>, pcs: seq<Pc>, t: nat, slot: nat, pc: Pc)
    requires |table.values| == |table.keys| && |owned| == |pcs| && t < |pcs| && slot < |table.keys|
    requires ValuesInv(table, j, owned, pcs)
    requires table.keys[slot] == Id(t) && pcs[t] == PlaceValue(j, owned[t], slot)
    ensures ValuesInv(table.(values := table.values[slot := owned[t]]), j, owned, pcs[t := pc])
  {
    var table' := table.(values := table.values[slot := owned[t]]);
    forall i | 0 <= i < |table'.keys| && table'.keys[i].Id?
      ensures ValueInv(table', j, owned, pcs[t := pc], i)
    {
      assert ValueInv(table, j, owned, pcs, i);
    }
  }

  lemma StepPlaceValue(s: State, h: History, t: nat)
    requires Inv(s, h) && t < |s.pcs| && s.pcs[t].PlaceValue?
    ensures InRange(s, t) && Inv(Next(s, t), h) && s.pcs[t].value == h.owned[t]
  {
    assert ThreadInv(s, h, s.pcs[t], t);
    var s' := Next(s, t);
    TablesPlaceValue(s, h, t);
    StoredAt(s', s.pcs[t].main, s.pcs[t].slot, t);
    LocalStep(s, h, s', h, t, Idle);
  }

  lemma StepElse(s: State, h: History, t: nat)
    requires Inv(s, h) && t < |s.pcs|
    requires match s.pcs[t]
      case Idle => true
      case Start => true
      case Test(_, _) => true
      case Reload(_) => true
      case Room(_, _) => true
      case Refresh(_) => true
      case _ => false
    ensures InRange(s, t) && Inv(Next(s, t), h)
  {
    assert ThreadInv(s, h, s.pcs[t], t);
    PcStep(s, h, t, Next(s, t).pcs[t]);
  }

  /** One step keeps the invariant; only a thread without a producer gets one, and keeps it. */
  lemma StepKeepsInv(s: State, h: History, t: nat) returns (h': History)
    requires Inv(s, h) && t < |s.pcs|
    ensures InRange(s, t) && Inv(Next(s, t), h')
    ensures |h'.owned| == |h.owned|
    ensures forall u :: 0 <= u < |h.owned| && h.owned[u].Producer? ==> h'.owned[u] == h.owned[u]
    ensures EventOf(s, t).Returned? ==> h'.owned[t].Producer? && EventOf(s, t) == Returned(t, h'.owned[t])
  {
    h' := h;
    match s.pcs[t]
    case Probe(_, _, _) => StepProbe(s, h, t);
    case Found(_, _, _) =>
      StepFound(s, h, t);
      FoundIsOwned(s, h, t);
    case Count(_) => h' := StepCount(s, h, t);
    case TryLock(_, _) => h' := StepTryLock(s, h, t);
    case Grow(_, _) => StepGrow(s, h, t);
    case Unlock(_, _) => StepUnlock(s, h, t);
    case Create(_) => h' := StepCreate(s, h, t);
    case Place(_, _, _) => StepPlace(s, h, t);
    case PlaceCas(_, _, _) => StepPlace(s, h, t);
    case PlaceValue(_, _, _) =>
      StepPlaceValue(s, h, t);
      FoundIsOwned(s, h, t);
    case _ => StepElse(s, h, t);
  }

  /** A thread whose id is in a table owns a producer. */
  lemma FoundIsOwned(s: State, h: History, t: nat)
    requires Inv(s, h) && t < |s.pcs| && (s.pcs[t].Found? || s.pcs[t].PlaceValue?)
    ensures h.owned[t].Producer?
  {
    assert ThreadInv(s, h, s.pcs[t], t);
    var j := if s.pcs[t].Found? then s.pcs[t].table else s.pcs[t].main;
    assert TableInv(s, h, j);
    assert ValueInv(s.tables[j], j, h.owned, s.pcs, s.pcs[t].slot);
  }
}

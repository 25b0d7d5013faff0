/**
  The reference-counted lock-free free list: `add`, `try_get` and `add_knowing_refcount_is_zero`.

  Every atomic load, store, fetch_add and compare-exchange is one step of one thread.  A node's
  reference field is a 32-bit word: the low 31 bits count references, the top bit says "should be on
  the free list".  Nodes are never deallocated while the list is in use, so they are numbered.
*/
module FreeList {
  import opened Sums

  const FLAG: nat := 0x8000_0000
  const WORD: nat := 0x1_0000_0000

  datatype Ptr = Null | To(n: nat)

  datatype Node = Node(refs: nat, next: Ptr)

  /** What a push does when it is done: `add` returns, `try_get` goes round with the head it last saw. */
  datatype Resume = Return | Retry(head: Ptr)

  datatype Pc =
    | Idle
    | AddFlag(node: nat)
    | PushLoad(node: nat, k: Resume)
    | PushNext(node: nat, head: Ptr, k: Resume)
    | PushRefs(node: nat, head: Ptr, k: Resume)
    | PushCas(node: nat, head: Ptr, k: Resume)
    | PushUndo(node: nat, head: Ptr, k: Resume)
    | GetLoad
    | GetRefs(node: nat)
    | GetInc(node: nat, refs: nat)
    | GetNext(node: nat)
    | GetCas(node: nat, next: Ptr)
    | GetCheck(node: nat)
    | GetDrop(node: nat)
    | GetDec(node: nat, head: Ptr)

  /** `out[n]` says that a client owns node n: it was handed out, or was never added. */
  datatype State = State(head: Ptr, nodes: seq<Node>, pcs: seq<Pc>, out: seq<bool>)

  /** A step of one thread; an idle thread picks what to call, and may add only a node that is out. */
  datatype Action = Go(thread: nat) | CallAdd(thread: nat, node: nat) | CallGet(thread: nat)

  datatype Event = Silent | Added(node: nat) | Taken(node: nat)

  function Init(nodes: nat, threads: nat): State {
    State(Null, seq(nodes, _ => Node(0, Null)), seq(threads, _ => Idle), seq(nodes, _ => true))
  }

  predicate Enabled(s: State, a: Action) {
    && a.thread < |s.pcs|
    && InRange(s, s.pcs[a.thread])
    && (a.Go? <==> !s.pcs[a.thread].Idle?)
    && (a.CallAdd? ==> a.node < |s.out| && s.out[a.node])
  }

  /** fetch_add on a 32-bit word. */
  function Plus(refs: nat, d: int): nat {
    (refs + d) % WORD
  }

  /** The test at the top of the loop of `try_get`. */
  function Loop(head: Ptr): Pc {
    if head.Null? then Idle else GetRefs(head.n)
  }

  function After(k: Resume): Pc {
    if k.Return? then Idle else Loop(k.head)
  }

  function At(s: State, t: nat, pc: Pc): State
    requires t < |s.pcs|
  {
    s.(pcs := s.pcs[t := pc])
  }

  function Store(s: State, n: nat, node: Node): State
    requires n < |s.nodes|
  {
    s.(nodes := s.nodes[n := node])
  }

  function Focus(pc: Pc): Ptr {
    if pc.Idle? || pc.GetLoad? then Null else To(pc.node)
  }

  /** The node a thread works on exists; this holds of every thread in every reachable state. */
  predicate InRange(s: State, pc: Pc) {
    |s.out| == |s.nodes| && (Focus(pc).To? ==> Focus(pc).n < |s.nodes|)
  }

  /** One atomic access of thread t. */
  function Next(s: State, t: nat): State
    requires t < |s.pcs| && InRange(s, s.pcs[t])
  {
    match s.pcs[t]
    case Idle => s
    case AddFlag(n) =>
      var was := s.nodes[n].refs;
      At(Store(s, n, s.nodes[n].(refs := Plus(was, FLAG))), t, if was == 0 then PushLoad(n, Return) else Idle)
    case PushLoad(n, k) => At(s, t, PushNext(n, s.head, k))
    case PushNext(n, h, k) => At(Store(s, n, s.nodes[n].(next := h)), t, PushRefs(n, h, k))
    case PushRefs(n, h, k) => At(Store(s, n, s.nodes[n].(refs := 1)), t, PushCas(n, h, k))
    case PushCas(n, h, k) =>
      if s.head == h then At(s, t, After(k)).(head := To(n)) else At(s, t, PushUndo(n, s.head, k))
    case PushUndo(n, h, k) =>
      var was := s.nodes[n].refs;
      At(Store(s, n, s.nodes[n].(refs := Plus(was, FLAG - 1))), t, if was == 1 then PushNext(n, h, k) else After(k))
    case GetLoad => At(s, t, Loop(s.head))
    case GetRefs(n) =>
      var refs := s.nodes[n].refs;
      At(s, t, if refs % FLAG == 0 then GetLoad else GetInc(n, refs))
    case GetInc(n, refs) =>
      if s.nodes[n].refs == refs
      then At(Store(s, n, s.nodes[n].(refs := Plus(refs, 1))), t, GetNext(n))
      else At(s, t, GetLoad)
    case GetNext(n) => At(s, t, GetCas(n, s.nodes[n].next))
    case GetCas(n, next) =>
      if s.head == To(n) then At(s, t, GetCheck(n)).(head := next) else At(s, t, GetDec(n, s.head))
    case GetCheck(n) => At(s, t, GetDrop(n))
    case GetDrop(n) =>
      At(Store(s, n, s.nodes[n].(refs := Plus(s.nodes[n].refs, -2))), t, Idle).(out := s.out[n := true])
    case GetDec(n, h) =>
      var was := s.nodes[n].refs;
      At(Store(s, n, s.nodes[n].(refs := Plus(was, -1))), t,
         if was == FLAG + 1 then PushLoad(n, Retry(h)) else Loop(h))
  }

  function Apply(s: State, a: Action): State
    requires Enabled(s, a)
  {
    match a
    case Go(t) => Next(s, t)
    case CallAdd(t, n) => At(s, t, AddFlag(n)).(out := s.out[n := false])
    case CallGet(t) => At(s, t, GetLoad)
  }

  function EventOf(s: State, a: Action): Event
    requires Enabled(s, a)
  {
    if a.CallAdd? then Added(a.node)
    else if s.pcs[a.thread].GetDrop? then Taken(s.pcs[a.thread].node)
    else Silent
  }

  /** Any interleaving of any number of threads. */
  ghost predicate IsRun(nodes: nat, threads: nat, ss: seq<State>, acts: seq<Action>) {
    && threads < FLAG - 1
    && |ss| == |acts| + 1
    && ss[0] == Init(nodes, threads)
    && forall i :: 0 <= i < |acts| ==> Enabled(ss[i], acts[i]) && ss[i + 1] == Apply(ss[i], acts[i])
  }

  lemma PlusExact(refs: nat, d: int)
    requires 0 <= refs + d < WORD
    ensures Plus(refs, d) == refs + d
  {
  }

  // ---------------------------------------------------------------- the invariant

  /** The node on which a program counter holds a counted reference. */
  function Held(pc: Pc): Ptr {
    match pc
    case GetNext(n) => To(n)
    case GetCas(n, _) => To(n)
    case GetCheck(n) => To(n)
    case GetDrop(n) => To(n)
    case GetDec(n, _) => To(n)
    case _ => Null
  }

  /** The node that is in the hands of this thread alone: being added, pushed, or just unlinked. */
  function Carried(pc: Pc): Ptr {
    match pc
    case AddFlag(n) => To(n)
    case PushLoad(n, _) => To(n)
    case PushNext(n, _, _) => To(n)
    case PushRefs(n, _, _) => To(n)
    case PushCas(n, _, _) => To(n)
    case PushUndo(n, _, _) => To(n)
    case GetCheck(n) => To(n)
    case GetDrop(n) => To(n)
    case _ => Null
  }

  function Holds(n: nat): Pc -> nat {
    (pc: Pc) => if Held(pc) == To(n) then 1 else 0
  }

  function Holders(pcs: seq<Pc>, n: nat): nat {
    Sum(pcs, Holds(n))
  }

  datatype Place = Out | Linked | Flagged | InHand(thread: nat)

  ghost predicate Valid(s: State, p: Ptr) {
    p.To? ==> p.n < |s.nodes|
  }

  /** The nodes reached from the head, in order: no node twice, the last one ends the list. */
  ghost predicate Chain(s: State, l: seq<nat>) {
    && (forall i :: 0 <= i < |l| ==> l[i] < |s.nodes|)
    && (forall i, j :: 0 <= i < j < |l| ==> l[i] != l[j])
    && s.head == Link(l, 0)
    && (forall i :: 0 <= i < |l| ==> s.nodes[l[i]].next == Link(l, i + 1))
  }

  ghost function Link(l: seq<nat>, i: nat): Ptr {
    if i < |l| then To(l[i]) else Null
  }

  ghost function ListRef(pc: Pc): nat {
    if pc.AddFlag? then 0 else if pc.PushLoad? || pc.PushNext? || pc.PushRefs? then FLAG else 1
  }

  ghost predicate Zeroed(pc: Pc) {
    pc.PushLoad? || pc.PushNext? || pc.PushRefs?
  }

  /** Where node n is, and what its reference field then holds. */
  ghost predicate NodeInv(s: State, l: seq<nat>, place: Place, n: nat)
    requires n < |s.nodes| && |s.out| == |s.nodes|
  {
    && (place.Linked? <==> n in l)
    && (place.Out? <==> s.out[n])
    && match place
       case Out => s.nodes[n].refs == Holders(s.pcs, n)
       case Linked => s.nodes[n].refs == Holders(s.pcs, n) + 1
       case Flagged => s.nodes[n].refs == Holders(s.pcs, n) + FLAG && Holders(s.pcs, n) > 0
       case InHand(t) =>
         && t < |s.pcs|
         && Carried(s.pcs[t]) == To(n)
         && s.nodes[n].refs == Holders(s.pcs, n) + ListRef(s.pcs[t])
         && (Zeroed(s.pcs[t]) ==> Holders(s.pcs, n) == 0)
  }

  ghost predicate ThreadInv(s: State, places: seq<Place>, pc: Pc, t: nat)
    requires |places| == |s.nodes|
  {
    && Valid(s, Focus(pc))
    && (Carried(pc).To? ==> places[Carried(pc).n] == InHand(t))
    && match pc
       case PushLoad(_, k) => Valid(s, Later(k))
       case PushNext(_, h, k) => Valid(s, h) && Valid(s, Later(k))
       case PushRefs(n, h, k) => s.nodes[n].next == h && Valid(s, h) && Valid(s, Later(k))
       case PushCas(n, h, k) => s.nodes[n].next == h && Valid(s, h) && Valid(s, Later(k))
       case PushUndo(_, h, k) => Valid(s, h) && Valid(s, Later(k))
       case GetInc(_, refs) => refs % FLAG > 0
       case GetCas(n, next) => s.nodes[n].next == next && Valid(s, next)
       case GetDec(_, h) => Valid(s, h)
       case _ => true
  }

  ghost function Later(k: Resume): Ptr {
    if k.Return? then Null else k.head
  }

  ghost predicate Inv(s: State, l: seq<nat>, places: seq<Place>) {
    && |places| == |s.out| == |s.nodes|
    && |s.pcs| < FLAG - 1
    && Chain(s, l)
    && (forall n :: 0 <= n < |s.nodes| ==> Valid(s, s.nodes[n].next))
    && (forall n :: 0 <= n < |s.nodes| ==> NodeInv(s, l, places[n], n))
    && (forall t :: 0 <= t < |s.pcs| ==> ThreadInv(s, places, s.pcs[t], t))
  }

  lemma HoldersBounded(pcs: seq<Pc>, n: nat)
    ensures Holders(pcs, n) <= |pcs|
  {
    SumBounded(pcs, Holds(n));
  }

  lemma HoldersUpdate(pcs: seq<Pc>, t: nat, pc: Pc, n: nat)
    requires t < |pcs|
    ensures Holders(pcs[t := pc], n) + (if Held(pcs[t]) == To(n) then 1 else 0)
         == Holders(pcs, n) + (if Held(pc) == To(n) then 1 else 0)
  {
    SumUpdate(pcs, t, pc, Holds(n));
  }

  lemma HolderCounts(pcs: seq<Pc>, t: nat, n: nat)
    requires t < |pcs| && Held(pcs[t]) == To(n)
    ensures Holders(pcs, n) > 0
  {
    SumAtLeast(pcs, t, Holds(n));
  }

  /** A step of thread t that concerns node n alone leaves every other node as it was. */
  lemma OtherNode(s: State, l: seq<nat>, t: nat, n: nat, s': State, l': seq<nat>, place: Place, m: nat)
    requires t < |s.pcs| && n < |s.nodes| && m < |s.nodes| && m != n
    requires |s'.pcs| == |s.pcs| && s'.pcs == s.pcs[t := s'.pcs[t]]
    requires |s'.nodes| == |s.nodes| && s'.nodes[m] == s.nodes[m]
    requires |s.out| == |s'.out| == |s.nodes| && s'.out[m] == s.out[m]
    requires m in l' <==> m in l
    requires Held(s.pcs[t]) != To(m) && Held(s'.pcs[t]) != To(m) && Carried(s.pcs[t]) != To(m)
    requires NodeInv(s, l, place, m)
    ensures NodeInv(s', l', place, m)
  {
    HoldersUpdate(s.pcs, t, s'.pcs[t], m);
  }

  /** Another thread keeps what it relies on: the link it read is not rewritten under it. */
  lemma OtherThread(s: State, places: seq<Place>, t: nat, n: nat, s': State, place: Place, u: nat)
    requires t < |s.pcs| && u < |s.pcs| && u != t && n < |s.nodes| == |places|
    requires |s'.nodes| == |s.nodes|
    requires forall m :: 0 <= m < |s.nodes| && m != n ==> s'.nodes[m] == s.nodes[m]
    requires places[n].InHand? && place != places[n] ==> places[n].thread == t
    requires s'.nodes[n].next != s.nodes[n].next ==> places[n] == InHand(t) && Holders(s.pcs, n) == 0
    requires ThreadInv(s, places, s.pcs[u], u)
    ensures ThreadInv(s', places[n := place], s.pcs[u], u)
  {
    if Held(s.pcs[u]) == To(n) {
      HolderCounts(s.pcs, u, n);
    }
  }

  /**
    A step of thread t that concerns node n alone keeps the invariant, once it is kept for that node,
    that thread and the list.
  */
  lemma LocalStep(s: State, l: seq<nat>, places: seq<Place>, t: nat, n: nat,
                  s': State, l': seq<nat>, place: Place)
    requires Inv(s, l, places)
    requires t < |s.pcs| && n < |s.nodes|
    requires |s'.pcs| == |s.pcs| && s'.pcs == s.pcs[t := s'.pcs[t]]
    requires |s'.nodes| == |s.nodes| && s'.nodes == s.nodes[n := s'.nodes[n]]
    requires |s'.out| == |s.out| && s'.out == s.out[n := s'.out[n]]
    requires forall m :: 0 <= m < |s.nodes| && m != n ==> (m in l' <==> m in l)
    requires forall pc :: pc in {s.pcs[t], s'.pcs[t]} ==> Held(pc) in {Null, To(n)}
    requires Carried(s.pcs[t]) in {Null, To(n)}
    requires places[n].InHand? && place != places[n] ==> places[n].thread == t
    requires s'.nodes[n].next != s.nodes[n].next ==> places[n] == InHand(t) && Holders(s.pcs, n) == 0
    requires Valid(s, s'.nodes[n].next)
    requires Chain(s', l')
    requires NodeInv(s', l', place, n)
    requires ThreadInv(s', places[n := place], s'.pcs[t], t)
    ensures Inv(s', l', places[n := place])
  {
    var places' := places[n := place];
    forall m | 0 <= m < |s'.nodes| ensures NodeInv(s', l', places'[m], m) {
      if m != n {
        OtherNode(s, l, t, n, s', l', places[m], m);
      }
    }
    forall u | 0 <= u < |s'.pcs| ensures ThreadInv(s', places', s'.pcs[u], u) {
      if u != t {
        OtherThread(s, places, t, n, s', place, u);
      }
    }
  }

  lemma PcStepNode(s: State, l: seq<nat>, t: nat, pc: Pc, place: Place, m: nat)
    requires t < |s.pcs| && m < |s.nodes| == |s.out|
    requires NodeInv(s, l, place, m)
    requires Held(pc) == Held(s.pcs[t]) && Carried(pc) == Carried(s.pcs[t])
    requires ListRef(pc) == ListRef(s.pcs[t])
    ensures NodeInv(At(s, t, pc), l, place, m)
  {
    HoldersUpdate(s.pcs, t, pc, m);
  }

  /** A step that only moves the program counter of t, holding and carrying what it did. */
  lemma PcStep(s: State, l: seq<nat>, places: seq<Place>, t: nat, pc: Pc)
    requires Inv(s, l, places)
    requires t < |s.pcs| && ThreadInv(s, places, pc, t)
    requires Held(pc) == Held(s.pcs[t]) && Carried(pc) == Carried(s.pcs[t])
    requires ListRef(pc) == ListRef(s.pcs[t])
    ensures Inv(At(s, t, pc), l, places)
  {
    var s' := At(s, t, pc);
    forall m | 0 <= m < |s'.nodes| ensures NodeInv(s', l, places[m], m) {
      PcStepNode(s, l, t, pc, places[m], m);
    }
    forall u | 0 <= u < |s'.pcs| ensures ThreadInv(s', places, s'.pcs[u], u) {
      SameMemory(s, s', places, s'.pcs[u], u);
    }
  }

  lemma SameMemory(s: State, s': State, places: seq<Place>, pc: Pc, u: nat)
    requires |places| == |s.nodes| && s'.nodes == s.nodes
    requires ThreadInv(s, places, pc, u)
    ensures ThreadInv(s', places, pc, u)
  {
  }

  /** What a thread that holds or carries a node knows about it. */
  lemma Known(s: State, l: seq<nat>, places: seq<Place>, t: nat)
    requires Inv(s, l, places) && t < |s.pcs|
    ensures ThreadInv(s, places, s.pcs[t], t)
    ensures var p := Focus(s.pcs[t]); p.To? ==>
      && p.n < |s.nodes|
      && NodeInv(s, l, places[p.n], p.n)
      && Holders(s.pcs, p.n) <= |s.pcs| < FLAG - 1
      && (Held(s.pcs[t]) == p ==> Holders(s.pcs, p.n) > 0)
  {
    assert ThreadInv(s, places, s.pcs[t], t);
    var p := Focus(s.pcs[t]);
    if p.To? {
      HoldersBounded(s.pcs, p.n);
      if Held(s.pcs[t]) == p {
        HolderCounts(s.pcs, t, p.n);
      }
    }
  }

  lemma StepCallAdd(s: State, l: seq<nat>, places: seq<Place>, t: nat, n: nat)
    requires Inv(s, l, places) && t < |s.pcs| && s.pcs[t].Idle?
    requires n < |s.nodes| && s.out[n]
    ensures Inv(At(s, t, AddFlag(n)).(out := s.out[n := false]), l, places[n := InHand(t)])
  {
    assert NodeInv(s, l, places[n], n);
    HoldersUpdate(s.pcs, t, AddFlag(n), n);
    LocalStep(s, l, places, t, n, At(s, t, AddFlag(n)).(out := s.out[n := false]), l, InHand(t));
  }

  lemma StepAddFlag(s: State, l: seq<nat>, places: seq<Place>, t: nat, n: nat) returns (place: Place)
    requires Inv(s, l, places) && t < |s.pcs| && s.pcs[t] == AddFlag(n)
    ensures n < |s.nodes| && Inv(Next(s, t), l, places[n := place])
  {
    Known(s, l, places, t);
    var s' := Next(s, t);
    HoldersUpdate(s.pcs, t, s'.pcs[t], n);
    PlusExact(s.nodes[n].refs, FLAG);
    if s.nodes[n].refs == 0 {
      place := InHand(t);
      LocalStep(s, l, places, t, n, s', l, InHand(t));
    } else {
      place := Flagged;
      LocalStep(s, l, places, t, n, s', l, Flagged);
    }
  }

  lemma StepPushNext(s: State, l: seq<nat>, places: seq<Place>, t: nat, n: nat)
    requires Inv(s, l, places) && t < |s.pcs| && s.pcs[t].PushNext? && s.pcs[t].node == n
    ensures n < |s.nodes| && Inv(Next(s, t), l, places[n := InHand(t)])
  {
    Known(s, l, places, t);
    var s' := Next(s, t);
    HoldersUpdate(s.pcs, t, s'.pcs[t], n);
    LocalStep(s, l, places, t, n, s', l, InHand(t));
  }

  lemma StepPushRefs(s: State, l: seq<nat>, places: seq<Place>, t: nat, n: nat)
    requires Inv(s, l, places) && t < |s.pcs| && s.pcs[t].PushRefs? && s.pcs[t].node == n
    ensures n < |s.nodes| && Inv(Next(s, t), l, places[n := InHand(t)])
  {
    Known(s, l, places, t);
    var s' := Next(s, t);
    HoldersUpdate(s.pcs, t, s'.pcs[t], n);
    LocalStep(s, l, places, t, n, s', l, InHand(t));
  }

  lemma ChainPush(s: State, l: seq<nat>, n: nat, s': State)
    requires Chain(s, l)
    requires n < |s.nodes| && n !in l && s.nodes[n].next == s.head
    requires s'.nodes == s.nodes && s'.head == To(n)
    ensures Chain(s', [n] + l)
  {
    var l' := [n] + l;
    forall i | 0 <= i < |l'| ensures s'.nodes[l'[i]].next == Link(l', i + 1) {
      if i > 0 {
        assert l'[i] == l[i - 1];
      }
    }
  }

  lemma ChainPop(s: State, l: seq<nat>, s': State)
    requires Chain(s, l) && l != []
    requires s'.nodes == s.nodes && s'.head == s.nodes[l[0]].next
    ensures Chain(s', l[1..])
    ensures forall m :: m in l[1..] <==> m in l && m != l[0]
  {
    var l' := l[1..];
    forall i | 0 <= i < |l'| ensures s'.nodes[l'[i]].next == Link(l', i + 1) {
      assert l'[i] == l[i + 1];
    }
    forall m | m in l && m != l[0] ensures m in l' {
      var i :| 0 <= i < |l| && l[i] == m;
      assert l'[i - 1] == m;
    }
  }

  /** The push succeeds: the node becomes the head of the list. */
  lemma StepPushCas(s: State, l: seq<nat>, places: seq<Place>, t: nat, n: nat)
    requires Inv(s, l, places) && t < |s.pcs| && s.pcs[t].PushCas? && s.pcs[t].node == n
    requires s.head == s.pcs[t].head
    ensures n < |s.nodes| && Inv(Next(s, t), [n] + l, places[n := Linked])
  {
    Known(s, l, places, t);
    var s' := Next(s, t);
    HoldersUpdate(s.pcs, t, s'.pcs[t], n);
    ChainPush(s, l, n, s');
    LocalStep(s, l, places, t, n, s', [n] + l, Linked);
  }

  lemma StepPushUndo(s: State, l: seq<nat>, places: seq<Place>, t: nat, n: nat) returns (place: Place)
    requires Inv(s, l, places) && t < |s.pcs| && s.pcs[t].PushUndo? && s.pcs[t].node == n
    ensures n < |s.nodes| && Inv(Next(s, t), l, places[n := place])
  {
    Known(s, l, places, t);
    var s' := Next(s, t);
    HoldersUpdate(s.pcs, t, s'.pcs[t], n);
    PlusExact(s.nodes[n].refs, FLAG - 1);
    if s.nodes[n].refs == 1 {
      place := InHand(t);
      LocalStep(s, l, places, t, n, s', l, InHand(t));
    } else {
      place := Flagged;
      LocalStep(s, l, places, t, n, s', l, Flagged);
    }
  }

  /** A counted reference comes or goes: the node stays where it is. */
  lemma NodeRecounted(s: State, l: seq<nat>, place: Place, t: nat, n: nat, s': State, d: int)
    requires t < |s.pcs| && n < |s.nodes| == |s.out|
    requires NodeInv(s, l, place, n)
    requires Carried(s.pcs[t]).Null?
    requires s'.out == s.out && |s'.nodes| == |s.nodes|
    requires |s'.pcs| == |s.pcs| && s'.pcs == s.pcs[t := s'.pcs[t]]
    requires Holders(s'.pcs, n) == Holders(s.pcs, n) + d
    requires s'.nodes[n].refs == s.nodes[n].refs + d
    requires place.Flagged? ==> Holders(s'.pcs, n) > 0
    requires Holders(s.pcs, n) == 0 ==> s.nodes[n].refs % FLAG > 0
    ensures NodeInv(s', l, place, n)
  {
  }

  /** A reference is counted only on a node that had one already. */
  lemma StepGetInc(s: State, l: seq<nat>, places: seq<Place>, t: nat, n: nat)
    requires Inv(s, l, places) && t < |s.pcs| && s.pcs[t].GetInc? && s.pcs[t].node == n
    requires n < |s.nodes| && s.nodes[n].refs == s.pcs[t].refs
    ensures Inv(Next(s, t), l, places)
  {
    Known(s, l, places, t);
    var s' := Next(s, t);
    HoldersUpdate(s.pcs, t, s'.pcs[t], n);
    assert s.nodes[n].refs <= Holders(s.pcs, n) + FLAG;
    PlusExact(s.nodes[n].refs, 1);
    NodeRecounted(s, l, places[n], t, n, s', 1);
    assert places[n := places[n]] == places;
    LocalStep(s, l, places, t, n, s', l, places[n]);
  }

  /** The head swings: the node read earlier is still first, and its link is still the one read. */
  lemma StepGetCas(s: State, l: seq<nat>, places: seq<Place>, t: nat, n: nat)
    requires Inv(s, l, places) && t < |s.pcs| && s.pcs[t].GetCas? && s.pcs[t].node == n
    requires s.head == To(n)
    ensures n < |s.nodes| && l != [] && l[0] == n
    ensures Inv(Next(s, t), l[1..], places[n := InHand(t)])
  {
    Known(s, l, places, t);
    var s' := Next(s, t);
    HoldersUpdate(s.pcs, t, s'.pcs[t], n);
    ChainPop(s, l, s');
    LocalStep(s, l, places, t, n, s', l[1..], InHand(t));
  }

  lemma StepGetDrop(s: State, l: seq<nat>, places: seq<Place>, t: nat, n: nat)
    requires Inv(s, l, places) && t < |s.pcs| && s.pcs[t] == GetDrop(n)
    ensures n < |s.nodes| && Inv(Next(s, t), l, places[n := Out])
  {
    Known(s, l, places, t);
    var s' := Next(s, t);
    HoldersUpdate(s.pcs, t, s'.pcs[t], n);
    assert s.nodes[n].refs == Holders(s.pcs, n) + 1 < FLAG;
    PlusExact(s.nodes[n].refs, -2);
    LocalStep(s, l, places, t, n, s', l, Out);
  }

  /** The last holder of a flagged node takes it in hand. */
  lemma StepGetDec(s: State, l: seq<nat>, places: seq<Place>, t: nat, n: nat) returns (place: Place)
    requires Inv(s, l, places) && t < |s.pcs| && s.pcs[t].GetDec? && s.pcs[t].node == n
    ensures n < |s.nodes| && Inv(Next(s, t), l, places[n := place])
  {
    Known(s, l, places, t);
    var s' := Next(s, t);
    place := if s.nodes[n].refs == FLAG + 1 then InHand(t) else places[n];
    HoldersUpdate(s.pcs, t, s'.pcs[t], n);
    assert Holders(s.pcs, n) <= s.nodes[n].refs <= Holders(s.pcs, n) + FLAG;
    PlusExact(s.nodes[n].refs, -1);
    if s.nodes[n].refs != FLAG + 1 {
      NodeRecounted(s, l, places[n], t, n, s', -1);
    }
    LocalStep(s, l, places, t, n, s', l, place);
  }

  /** The accesses that only read, or whose compare-exchange fails. */
  predicate OnlyReads(s: State, pc: Pc)
    requires InRange(s, pc)
  {
    match pc
    case PushLoad(_, _) => true
    case PushCas(_, h, _) => s.head != h
    case GetLoad => true
    case GetRefs(_) => true
    case GetInc(n, refs) => s.nodes[n].refs != refs
    case GetNext(_) => true
    case GetCas(n, _) => s.head != To(n)
    case GetCheck(_) => true
    case _ => false
  }

  lemma StepOnlyReads(s: State, l: seq<nat>, places: seq<Place>, t: nat)
    requires Inv(s, l, places) && t < |s.pcs|
    requires InRange(s, s.pcs[t]) && OnlyReads(s, s.pcs[t])
    ensures Inv(Next(s, t), l, places)
  {
    Known(s, l, places, t);
    assert Valid(s, Link(l, 0));
    PcStep(s, l, places, t, Next(s, t).pcs[t]);
  }

  lemma StepKeepsInv(s: State, l: seq<nat>, places: seq<Place>, t: nat)
    returns (l': seq<nat>, places': seq<Place>)
    requires Inv(s, l, places) && t < |s.pcs|
    ensures InRange(s, s.pcs[t])
    ensures Inv(Next(s, t), l', places')
  {
    assert ThreadInv(s, places, s.pcs[t], t);
    l', places' := l, places;
    if OnlyReads(s, s.pcs[t]) {
      StepOnlyReads(s, l, places, t);
    } else {
      match s.pcs[t]
      case AddFlag(n) =>
        var place := StepAddFlag(s, l, places, t, n);
        places' := places[n := place];
      case PushNext(n, h, k) =>
        StepPushNext(s, l, places, t, n);
        places' := places[n := InHand(t)];
      case PushRefs(n, h, k) =>
        StepPushRefs(s, l, places, t, n);
        places' := places[n := InHand(t)];
      case PushCas(n, h, k) =>
        StepPushCas(s, l, places, t, n);
        l', places' := [n] + l, places[n := Linked];
      case PushUndo(n, h, k) =>
        var place := StepPushUndo(s, l, places, t, n);
        places' := places[n := place];
      case GetInc(n, refs) =>
        StepGetInc(s, l, places, t, n);
      case GetCas(n, next) =>
        StepGetCas(s, l, places, t, n);
        l', places' := l[1..], places[n := InHand(t)];
      case GetDrop(n) =>
        StepGetDrop(s, l, places, t, n);
        places' := places[n := Out];
      case GetDec(n, h) =>
        var place := StepGetDec(s, l, places, t, n);
        places' := places[n := place];
      case _ =>
    }
  }

  lemma InitInv(nodes: nat, threads: nat)
    requires threads < FLAG - 1
    ensures Inv(Init(nodes, threads), [], seq(nodes, _ => Out))
  {
    var s := Init(nodes, threads);
    forall n | 0 <= n < nodes ensures NodeInv(s, [], Out, n) {
      SumZero(s.pcs, Holds(n));
    }
  }

  lemma StepCallGet(s: State, l: seq<nat>, places: seq<Place>, t: nat)
    requires Inv(s, l, places) && t < |s.pcs| && s.pcs[t].Idle?
    ensures Inv(At(s, t, GetLoad), l, places)
  {
    PcStep(s, l, places, t, GetLoad);
  }

  /** Every state of every run satisfies the invariant. */
  lemma {:induction false} RunInv(nodes: nat, threads: nat, ss: seq<State>, acts: seq<Action>, i: nat)
    returns (l: seq<nat>, places: seq<Place>)
    requires IsRun(nodes, threads, ss, acts) && i < |ss|
    ensures Inv(ss[i], l, places)
  {
    if i == 0 {
      l, places := [], seq(nodes, _ => Out);
      InitInv(nodes, threads);
    } else {
      l, places := RunInv(nodes, threads, ss, acts, i - 1);
      assert Enabled(ss[i - 1], acts[i - 1]) && ss[i - 1 + 1] == Apply(ss[i - 1], acts[i - 1]);
      match acts[i - 1]
      case Go(t) => l, places := StepKeepsInv(ss[i - 1], l, places, t);
      case CallAdd(t, n) =>
        StepCallAdd(ss[i - 1], l, places, t, n);
        places := places[n := InHand(t)];
      case CallGet(t) => StepCallGet(ss[i - 1], l, places, t);
    }
  }

  // ---------------------------------------------------------------- main results

  /** Right after a successful head swing the should-be-on-list bit of the node taken is clear. */
  lemma TakenNodeIsUnflagged(nodes: nat, threads: nat, ss: seq<State>, acts: seq<Action>, i: nat, t: nat)
    requires IsRun(nodes, threads, ss, acts) && i < |ss|
    requires t < |ss[i].pcs| && ss[i].pcs[t].GetCheck?
    ensures ss[i].pcs[t].node < |ss[i].nodes|
    ensures ss[i].nodes[ss[i].pcs[t].node].refs < FLAG
  {
    var l, places := RunInv(nodes, threads, ss, acts, i);
    Known(ss[i], l, places, t);
  }

  /** A node's link is never rewritten while any thread holds a counted reference on it. */
  lemma LinkStableWhileHeld(nodes: nat, threads: nat, ss: seq<State>, acts: seq<Action>, i: nat, u: nat, n: nat)
    requires IsRun(nodes, threads, ss, acts) && i < |acts|
    requires u < |ss[i].pcs| && Held(ss[i].pcs[u]) == To(n)
    ensures n < |ss[i].nodes| == |ss[i + 1].nodes| && ss[i + 1].nodes[n].next == ss[i].nodes[n].next
  {
    var s, a := ss[i], acts[i];
    var l, places := RunInv(nodes, threads, ss, acts, i);
    assert Enabled(s, a) && ss[i + 1] == Apply(s, a);
    Known(s, l, places, u);
    if a.Go? && s.pcs[a.thread].PushNext? {
      Known(s, l, places, a.thread);
    }
  }

  /** The compare-exchange that takes a node installs the node's present link, never a stale one. */
  lemma HeadSwingIsFresh(nodes: nat, threads: nat, ss: seq<State>, acts: seq<Action>, i: nat, t: nat)
    requires IsRun(nodes, threads, ss, acts) && i < |acts|
    requires acts[i] == Go(t) && ss[i].pcs[t].GetCas? && ss[i].head == To(ss[i].pcs[t].node)
    ensures ss[i].pcs[t].node < |ss[i].nodes|
    ensures ss[i + 1].head == ss[i].nodes[ss[i].pcs[t].node].next
  {
    var l, places := RunInv(nodes, threads, ss, acts, i);
    assert Enabled(ss[i], acts[i]) && ss[i + 1] == Apply(ss[i], acts[i]);
    Known(ss[i], l, places, t);
  }

  ghost predicate Flag(s: State, n: nat)
    requires n < |s.nodes|
  {
    s.nodes[n].refs / FLAG == 1 && s.nodes[n].refs % FLAG > 0
  }

  /** Exactly one of: owned by a client, linked, in the hands of one thread, flagged for its last holder. */
  ghost predicate InOnePlace(s: State, l: seq<nat>, n: nat)
    requires n < |s.nodes| == |s.out|
  {
    var inHand := exists t :: 0 <= t < |s.pcs| && Carried(s.pcs[t]) == To(n);
    && (s.out[n] || n in l || inHand || Flag(s, n))
    && !(s.out[n] && (n in l || inHand || Flag(s, n)))
    && !(n in l && (inHand || Flag(s, n)))
    && !(inHand && Flag(s, n))
  }

  ghost predicate CarriedOnce(s: State, n: nat) {
    forall t, u | 0 <= t < u < |s.pcs| :: Carried(s.pcs[t]) != To(n) || Carried(s.pcs[u]) != To(n)
  }

  /** A flagged node has a holder that is still to give its reference back. */
  ghost predicate HasObligedHolder(s: State, n: nat) {
    exists t :: 0 <= t < |s.pcs| && Held(s.pcs[t]) == To(n) && Carried(s.pcs[t]).Null?
  }

  lemma SomeHolder(pcs: seq<Pc>, n: nat) returns (t: nat)
    requires Holders(pcs, n) > 0
    ensures t < |pcs| && Held(pcs[t]) == To(n)
  {
    SumZero(pcs, Holds(n));
    t :| t < |pcs| && Holds(n)(pcs[t]) != 0;
  }

  /** Conservation: no interleaving loses a node or has it in two places. */
  lemma EveryNodeInOnePlace(nodes: nat, threads: nat, ss: seq<State>, acts: seq<Action>, i: nat)
    returns (l: seq<nat>)
    requires IsRun(nodes, threads, ss, acts) && i < |ss|
    ensures |ss[i].out| == |ss[i].nodes| && Chain(ss[i], l)
    ensures forall n :: 0 <= n < |ss[i].nodes| ==> InOnePlace(ss[i], l, n) && CarriedOnce(ss[i], n)
    ensures forall n :: 0 <= n < |ss[i].nodes| && Flag(ss[i], n) ==> HasObligedHolder(ss[i], n)
  {
    var s := ss[i];
    var places;
    l, places := RunInv(nodes, threads, ss, acts, i);
    forall n | 0 <= n < |s.nodes|
      ensures InOnePlace(s, l, n) && CarriedOnce(s, n)
      ensures Flag(s, n) ==> HasObligedHolder(s, n)
    {
      assert NodeInv(s, l, places[n], n);
      HoldersBounded(s.pcs, n);
      assert forall t :: 0 <= t < |s.pcs| && Carried(s.pcs[t]) == To(n) ==> places[n] == InHand(t);
      if places[n].Flagged? {
        var t := SomeHolder(s.pcs, n);
        assert ThreadInv(s, places, s.pcs[t], t);
      }
    }
  }

  /** Whoever gives back the last reference on a flagged node goes on to push it. */
  lemma LastHolderPushes(nodes: nat, threads: nat, ss: seq<State>, acts: seq<Action>, i: nat, t: nat)
    requires IsRun(nodes, threads, ss, acts) && i < |acts|
    requires acts[i] == Go(t) && ss[i].pcs[t].GetDec?
    ensures var n := ss[i].pcs[t].node;
      && n < |ss[i].nodes|
      && (ss[i + 1].pcs[t].PushLoad? <==> Flag(ss[i], n) && Holders(ss[i].pcs, n) == 1)
  {
    var l, places := RunInv(nodes, threads, ss, acts, i);
    assert Enabled(ss[i], acts[i]) && ss[i + 1] == Apply(ss[i], acts[i]);
    Known(ss[i], l, places, t);
  }

  /** With no thread inside an operation the list holds exactly the nodes added and not taken, once each. */
  lemma QuiescentList(nodes: nat, threads: nat, ss: seq<State>, acts: seq<Action>, i: nat)
    returns (l: seq<nat>)
    requires IsRun(nodes, threads, ss, acts) && i < |ss|
    requires forall t :: 0 <= t < |ss[i].pcs| ==> ss[i].pcs[t].Idle?
    ensures |ss[i].out| == |ss[i].nodes| && Chain(ss[i], l)
    ensures forall n :: 0 <= n < |ss[i].nodes| ==> (n in l <==> !ss[i].out[n])
  {
    l := EveryNodeInOnePlace(nodes, threads, ss, acts, i);
    forall n | 0 <= n < |ss[i].nodes| ensures n in l <==> !ss[i].out[n] {
      assert InOnePlace(ss[i], l, n);
    }
  }

  lemma {:induction false} LeavesOutOnlyByAdd(nodes: nat, threads: nat, ss: seq<State>, acts: seq<Action>,
                                              i: nat, j: nat, n: nat) returns (k: nat)
    requires IsRun(nodes, threads, ss, acts) && i <= j < |ss|
    requires n < |ss[i].out| && ss[i].out[n]
    requires n >= |ss[j].out| || !ss[j].out[n]
    ensures i <= k < j && EventOf(ss[k], acts[k]) == Added(n)
    decreases j - i
  {
    assert Enabled(ss[i], acts[i]) && ss[i + 1] == Apply(ss[i], acts[i]);
    if acts[i].CallAdd? && acts[i].node == n {
      k := i;
    } else {
      k := LeavesOutOnlyByAdd(nodes, threads, ss, acts, i + 1, j, n);
    }
  }

  lemma TakenWasNotOut(nodes: nat, threads: nat, ss: seq<State>, acts: seq<Action>, j: nat, n: nat)
    requires IsRun(nodes, threads, ss, acts) && j < |acts|
    requires EventOf(ss[j], acts[j]) == Taken(n)
    ensures n < |ss[j].out| == |ss[j + 1].out| && !ss[j].out[n] && ss[j + 1].out[n]
  {
    var l, places := RunInv(nodes, threads, ss, acts, j);
    assert Enabled(ss[j], acts[j]) && ss[j + 1] == Apply(ss[j], acts[j]);
    Known(ss[j], l, places, acts[j].thread);
  }

  /** A node is handed out only after it was added. */
  lemma TakenOnlyAfterAdded(nodes: nat, threads: nat, ss: seq<State>, acts: seq<Action>, j: nat, n: nat)
    returns (k: nat)
    requires IsRun(nodes, threads, ss, acts) && j < |acts|
    requires EventOf(ss[j], acts[j]) == Taken(n)
    ensures k < j && EventOf(ss[k], acts[k]) == Added(n)
  {
    TakenWasNotOut(nodes, threads, ss, acts, j, n);
    SameNodes(nodes, threads, ss, acts, j);
    k := LeavesOutOnlyByAdd(nodes, threads, ss, acts, 0, j, n);
  }

  lemma {:induction false} SameNodes(nodes: nat, threads: nat, ss: seq<State>, acts: seq<Action>, i: nat)
    requires IsRun(nodes, threads, ss, acts) && i < |ss|
    ensures |ss[i].out| == nodes
  {
    if i > 0 {
      SameNodes(nodes, threads, ss, acts, i - 1);
      assert Enabled(ss[i - 1], acts[i - 1]) && ss[i - 1 + 1] == Apply(ss[i - 1], acts[i - 1]);
    }
  }

  /** In every run, between two hand-outs of the same node that node is added again. */
  lemma NoDoubleHandOut(nodes: nat, threads: nat, ss: seq<State>, acts: seq<Action>, i: nat, j: nat, n: nat)
    returns (k: nat)
    requires IsRun(nodes, threads, ss, acts) && i < j < |acts|
    requires EventOf(ss[i], acts[i]) == Taken(n) && EventOf(ss[j], acts[j]) == Taken(n)
    ensures i < k < j && EventOf(ss[k], acts[k]) == Added(n)
  {
    TakenWasNotOut(nodes, threads, ss, acts, i, n);
    TakenWasNotOut(nodes, threads, ss, acts, j, n);
    k := LeavesOutOnlyByAdd(nodes, threads, ss, acts, i + 1, j, n);
  }

  // ---------------------------------------------------------------- try_get comes back empty only from an empty list

  /** The thread is inside `try_get`. */
  predicate Seeking(pc: Pc) {
    match pc
    case Idle => false
    case AddFlag(_) => false
    case PushLoad(_, k) => k.Retry?
    case PushNext(_, _, k) => k.Retry?
    case PushRefs(_, _, k) => k.Retry?
    case PushCas(_, _, k) => k.Retry?
    case PushUndo(_, _, k) => k.Retry?
    case _ => true
  }

  /** The head it goes round with is null, so it will come back empty. */
  predicate GivesUp(pc: Pc) {
    match pc
    case PushLoad(_, k) => k == Retry(Null)
    case PushNext(_, _, k) => k == Retry(Null)
    case PushRefs(_, _, k) => k == Retry(Null)
    case PushCas(_, _, k) => k == Retry(Null)
    case PushUndo(_, _, k) => k == Retry(Null)
    case GetDec(_, h) => h.Null?
    case _ => false
  }

  /** The list was empty at some time after step i and before step j. */
  ghost predicate WasEmpty(ss: seq<State>, i: nat, j: nat) {
    exists k :: i < k < j && k < |ss| && ss[k].head.Null?
  }

  lemma SeekStep(s: State, t: nat)
    requires t < |s.pcs| && InRange(s, s.pcs[t]) && Seeking(s.pcs[t])
    ensures var pc := Next(s, t).pcs[t];
      && (Seeking(pc) || pc.Idle?)
      && (GivesUp(pc) && !GivesUp(s.pcs[t]) ==> s.head.Null?)
      && (pc.Idle? && !GivesUp(s.pcs[t]) ==> s.head.Null? || EventOf(s, Go(t)).Taken?)
  {
  }

  /** Thread t calls `try_get` at step i, is in the call until step j, and is handed out no block meanwhile. */
  ghost predicate NoneTaken(ss: seq<State>, acts: seq<Action>, i: nat, j: nat, t: nat) {
    && i < j < |ss| && |ss| == |acts| + 1 && acts[i] == CallGet(t)
    && forall m {:trigger ss[m]} :: i < m < j ==>
         && t < |ss[m].pcs| && !ss[m].pcs[t].Idle?
         && Enabled(ss[m], acts[m]) && (acts[m] == Go(t) ==> !EventOf(ss[m], acts[m]).Taken?)
  }

  lemma EmptyBefore(ss: seq<State>, i: nat, j: nat)
    requires i < j - 1 < |ss|
    ensures WasEmpty(ss, i, j) <==> WasEmpty(ss, i, j - 1) || ss[j - 1].head.Null?
  {
  }

  lemma {:induction false} SeekerSawEmpty(nodes: nat, threads: nat, ss: seq<State>, acts: seq<Action>,
                                          i: nat, j: nat, t: nat)
    requires IsRun(nodes, threads, ss, acts) && NoneTaken(ss, acts, i, j, t)
    ensures t < |ss[j].pcs| && (Seeking(ss[j].pcs[t]) || ss[j].pcs[t].Idle?)
    ensures GivesUp(ss[j].pcs[t]) || ss[j].pcs[t].Idle? ==> WasEmpty(ss, i, j)
    decreases j
  {
    var s := ss[j - 1];
    assert Enabled(s, acts[j - 1]) && ss[j - 1 + 1] == Apply(s, acts[j - 1]);
    if i < j - 1 {
      SeekerSawEmpty(nodes, threads, ss, acts, i, j - 1, t);
      EmptyBefore(ss, i, j);
      SeekerStep(s, acts[j - 1], t);
    }
  }

  lemma SeekerStep(s: State, a: Action, t: nat)
    requires Enabled(s, a) && t < |s.pcs| && Seeking(s.pcs[t])
    requires a == Go(t) ==> !EventOf(s, a).Taken?
    ensures var pc := Apply(s, a).pcs[t];
      (Seeking(pc) || pc.Idle?) && (GivesUp(pc) || pc.Idle? ==> GivesUp(s.pcs[t]) || s.head.Null?)
  {
    if a.thread == t { SeekStep(s, t); }
  }

  /** If `try_get` comes back with nothing, the list was empty at some time during the call. */
  lemma MissMeansEmpty(nodes: nat, threads: nat, ss: seq<State>, acts: seq<Action>, i: nat, j: nat, t: nat)
    returns (k: nat)
    requires IsRun(nodes, threads, ss, acts) && NoneTaken(ss, acts, i, j, t)
    requires t < |ss[j].pcs| && ss[j].pcs[t].Idle?
    ensures i < k < j && ss[k].head.Null?
  {
    SeekerSawEmpty(nodes, threads, ss, acts, i, j, t);
    k :| i < k < j && k < |ss| && ss[k].head.Null?;
  }

  // ---------------------------------------------------------------- a thread that runs alone

  /** The state after k accesses of thread t. */
  function Alone(s: State, t: nat, k: nat): State
    decreases k
  {
    if k == 0 || !Enabled(s, Go(t)) then s else Alone(Next(s, t), t, k - 1)
  }

  predicate AllIdle(s: State) {
    forall t :: 0 <= t < |s.pcs| ==> s.pcs[t].Idle?
  }

  lemma {:induction false} AloneSplits(s: State, t: nat, k: nat)
    requires Enabled(s, Go(t))
    ensures Alone(s, t, k + 1) == Alone(Next(s, t), t, k)
  {
  }

  /** At rest nobody holds a reference. */
  lemma RestRefs(s: State, l: seq<nat>, places: seq<Place>, n: nat)
    requires Inv(s, l, places) && AllIdle(s) && n < |s.nodes|
    ensures n in l ==> s.nodes[n].refs == 1 && !s.out[n]
    ensures s.out[n] ==> s.nodes[n].refs == 0
  {
    SumZero(s.pcs, Holds(n));
    assert NodeInv(s, l, places[n], n);
  }

  /** Thread t is at pc, and block n has the given count. */
  function With(s: State, t: nat, n: nat, refs: nat, pc: Pc): State
    requires t < |s.pcs| && n < |s.nodes|
  {
    At(Store(s, n, s.nodes[n].(refs := refs)), t, pc)
  }

  lemma TakesReference(s: State, t: nat, n: nat)
    requires t < |s.pcs| && n < |s.nodes| == |s.out| && s.head == To(n) && s.nodes[n].refs == 1
    ensures Alone(At(s, t, GetLoad), t, 3) == With(s, t, n, 2, GetNext(n))
  {
    var s0, s1, s2 := At(s, t, GetLoad), At(s, t, GetRefs(n)), At(s, t, GetInc(n, 1));
    assert Next(s0, t) == s1 && Next(s1, t) == s2 && Next(s2, t) == With(s, t, n, 2, GetNext(n));
    AloneSplits(s0, t, 2);
    AloneSplits(s1, t, 1);
    AloneSplits(s2, t, 0);
  }

  lemma TakesHead(s: State, t: nat, n: nat)
    requires t < |s.pcs| && n < |s.nodes| == |s.out| && s.head == To(n)
    ensures Alone(With(s, t, n, 2, GetNext(n)), t, 3) == With(s.(head := s.nodes[n].next), t, n, 2, GetDrop(n))
  {
    var s0, s1 := With(s, t, n, 2, GetNext(n)), With(s, t, n, 2, GetCas(n, s.nodes[n].next));
    var rest := s.(head := s.nodes[n].next);
    assert Next(s0, t) == s1;
    assert Next(s1, t) == With(rest, t, n, 2, GetCheck(n));
    assert Next(With(rest, t, n, 2, GetCheck(n)), t) == With(rest, t, n, 2, GetDrop(n));
    AloneSplits(s0, t, 2);
    AloneSplits(s1, t, 1);
    AloneSplits(With(rest, t, n, 2, GetCheck(n)), t, 0);
  }

  lemma {:induction false} AloneJoins(s: State, t: nat, k: nat, m: nat)
    ensures Alone(s, t, k + m) == Alone(Alone(s, t, k), t, m)
    decreases k
  {
    if k > 0 {
      if Enabled(s, Go(t)) {
        AloneJoins(Next(s, t), t, k - 1, m);
      } else {
        AloneStuck(s, t, m);
      }
    }
  }

  lemma AloneStuck(s: State, t: nat, m: nat)
    requires !Enabled(s, Go(t))
    ensures Alone(s, t, m) == s
  {
  }

  /** From a list at rest, `try_get` takes the first block in seven accesses, and the rest stays as it was. */
  lemma SoloGet(s: State, l: seq<nat>, places: seq<Place>, t: nat)
    requires Inv(s, l, places) && AllIdle(s) && t < |s.pcs| && l != []
    ensures var called, n := Apply(s, CallGet(t)), l[0];
      && Enabled(Alone(called, t, 6), Go(t)) && EventOf(Alone(called, t, 6), Go(t)) == Taken(n)
      && Next(Alone(called, t, 6), t) ==
           s.(head := Link(l, 1), nodes := s.nodes[n := s.nodes[n].(refs := 0)], out := s.out[n := true])
  {
    var n := l[0];
    RestRefs(s, l, places, n);
    TakesReference(s, t, n);
    TakesHead(s, t, n);
    AloneJoins(Apply(s, CallGet(t)), t, 3, 3);
    var last := With(s.(head := s.nodes[n].next), t, n, 2, GetDrop(n));
    assert s.pcs[t := GetDrop(n)][t := Idle] == s.pcs;
    assert last.nodes[n := s.nodes[n].(refs := 0)] == s.nodes[n := s.nodes[n].(refs := 0)];
  }

  /** To a list at rest, `add` puts the block in front in five accesses. */
  lemma SoloAdd(s: State, l: seq<nat>, places: seq<Place>, t: nat, n: nat)
    requires Inv(s, l, places) && AllIdle(s) && t < |s.pcs| && n < |s.out| && s.out[n]
    ensures Alone(Apply(s, CallAdd(t, n)), t, 5) ==
      s.(head := To(n), nodes := s.nodes[n := Node(1, s.head)], out := s.out[n := false])
  {
    RestRefs(s, l, places, n);
    var o := s.(out := s.out[n := false]);
    var s0, s1 := At(o, t, AddFlag(n)), With(o, t, n, FLAG, PushLoad(n, Return));
    var s2, s3 := With(o, t, n, FLAG, PushNext(n, s.head, Return)), At(Store(o, n, Node(FLAG, s.head)), t, PushRefs(n, s.head, Return));
    var s4 := At(Store(o, n, Node(1, s.head)), t, PushCas(n, s.head, Return));
    assert Next(s0, t) == s1 && Next(s1, t) == s2;
    assert Next(s2, t) == s3;
    assert Next(s3, t) == s4;
    assert Next(s4, t).pcs == s.pcs;
    AloneSplits(s0, t, 4);
    AloneSplits(s1, t, 3);
    AloneSplits(s2, t, 2);
    AloneSplits(s3, t, 1);
    AloneSplits(s4, t, 0);
  }

  /** So in every run: from a list at rest that is not empty `try_get` hands out its first block, and `add` brings one
    * in front. */
  lemma SoloGetAndAdd(nodes: nat, threads: nat, ss: seq<State>, acts: seq<Action>, i: nat, t: nat)
    returns (l: seq<nat>)
    requires IsRun(nodes, threads, ss, acts) && i < |ss| && t < |ss[i].pcs| && AllIdle(ss[i])
    ensures |ss[i].out| == |ss[i].nodes| && Chain(ss[i], l)
    ensures var s := ss[i];
      var called := At(s, t, GetLoad);
      if l == [] then Alone(called, t, 1) == s
      else
        && Enabled(Alone(called, t, 6), Go(t)) && EventOf(Alone(called, t, 6), Go(t)) == Taken(l[0])
        && Chain(Next(Alone(called, t, 6), t), l[1..]) && AllIdle(Next(Alone(called, t, 6), t))
    ensures forall n: nat {:trigger ss[i].out[n]} :: n < |ss[i].out| && ss[i].out[n] ==>
      var s' := Alone(Apply(ss[i], CallAdd(t, n)), t, 5); Chain(s', [n] + l) && AllIdle(s')
  {
    var s := ss[i];
    var places;
    l, places := RunInv(nodes, threads, ss, acts, i);
    if l == [] {
      AloneSplits(At(s, t, GetLoad), t, 0);
      assert Next(At(s, t, GetLoad), t).pcs == s.pcs;
    } else {
      SoloGet(s, l, places, t);
      ChainPopped(s, l);
    }
    forall n: nat | n < |s.out| && s.out[n]
      ensures var s' := Alone(Apply(s, CallAdd(t, n)), t, 5); Chain(s', [n] + l) && AllIdle(s')
    {
      SoloAdd(s, l, places, t, n);
      RestRefs(s, l, places, n);
      ChainPushed(s, l, n);
    }
  }

  lemma ChainPopped(s: State, l: seq<nat>)
    requires Chain(s, l) && l != [] && |s.out| == |s.nodes|
    ensures Chain(s.(head := Link(l, 1), nodes := s.nodes[l[0] := s.nodes[l[0]].(refs := 0)], out := s.out[l[0] := true]),
                  l[1..])
  {
    var s' := s.(head := Link(l, 1), nodes := s.nodes[l[0] := s.nodes[l[0]].(refs := 0)], out := s.out[l[0] := true]);
    forall k | 0 <= k < |l[1..]|
      ensures s'.nodes[l[1..][k]].next == Link(l[1..], k + 1)
    {
      assert l[1..][k] == l[k + 1];
    }
  }

  lemma ChainPushed(s: State, l: seq<nat>, n: nat)
    requires Chain(s, l) && n < |s.nodes| == |s.out| && n !in l
    ensures Chain(s.(head := To(n), nodes := s.nodes[n := Node(1, s.head)], out := s.out[n := false]), [n] + l)
  {
    var s' := s.(head := To(n), nodes := s.nodes[n := Node(1, s.head)], out := s.out[n := false]);
    forall k | 0 <= k < |[n] + l|
      ensures s'.nodes[([n] + l)[k]].next == Link([n] + l, k + 1)
    {
      if k > 0 { assert ([n] + l)[k] == l[k - 1]; }
    }
  }
}

/**
  The simulator's scheduler: messages wait in the mailbox of their receiver, and for each of them a token
  with the receiver's id goes to the workers' run queue.  The two are queued separately.

  Threads are workers and outsiders that only send; each access to a mailbox or to the run queue is one
  step, and handlers may send while they run and throw when they please.
*/
module Scheduler {
  import opened Sums
  import opened Mailbox

  datatype Job =
    | Outsider
    | Free                          // between two calls of try_dequeue
    | Serving(n: nat, num: nat)     // in the inner loop, about to look into the mailbox
    | Handling(n: nat, num: nat)    // inside handle_message
    | Requeueing(n: nat)            // the mailbox said -1, the token is yet to be put back

  /** A token a thread has to put into the run queue to complete a send. */
  datatype Debt = Nothing | Token(n: nat)

  datatype Thread = Thread(job: Job, debt: Debt)

  /** What went into a mailbox and what came out. */
  datatype Book = Book(plainIn: seq<Message>, plainOut: seq<Message>,
                       delayedIn: multiset<Timed>, delayedOut: multiset<Timed>)

  /** The books record the past and influence no step. */
  datatype State = State(mail: seq<Mail>, tokens: multiset<nat>, threads: seq<Thread>,
                         queued: int, all: nat, books: seq<Book>)

  datatype Action =
    | Send(to: nat, message: Message, now: nat, accepted: bool)
    | Pay
    | Take(n: nat)
    | Serve(now: nat, top: Timed)
    | PutBack
    | Return
    | Throw

  const BATCH := 128

  predicate Enabled(s: State, t: nat, a: Action) {
    && t < |s.threads|
    && var th := s.threads[t];
    && (a.Pay? <==> th.debt.Token?)
    && match a
       case Send(to, _, _, _) => (th.job.Outsider? || th.job.Handling?) && to < |s.mail|
       case Pay => true
       case Take(n) => th.job.Free? && n in s.tokens
       case Serve(_, top) =>
         && th.job.Serving? && th.job.n < |s.mail|
         && var m := s.mail[th.job.n];
         && (m.plain == [] && m.delayed != multiset{} ==> IsTop(m.delayed, top))
       case PutBack => th.job.Requeueing?
       case Return => th.job.Handling?
       case Throw => th.job.Handling?
  }

  function Become(s: State, t: nat, job: Job): State
    requires t < |s.threads|
  {
    s.(threads := s.threads[t := Thread(job, Nothing)])
  }

  function Next(s: State, t: nat, a: Action): State
    requires Enabled(s, t, a) && |s.books| == |s.mail|
  {
    var th := s.threads[t];
    match a
    case Send(to, message, now, accepted) =>
      Sent(s, t, to, message.(hops := message.hops + 1), now, accepted)
    case Pay => s.(threads := s.threads[t := th.(debt := Nothing)], tokens := s.tokens + multiset{th.debt.n})
    case Take(n) => Become(s, t, Serving(n, 0)).(tokens := s.tokens - multiset{n})
    case Serve(now, top) => ServeNext(s, t, th.job.n, th.job.num, now, top)
    case PutBack => Become(s, t, Free).(tokens := s.tokens + multiset{th.job.n})
    case Return => Become(s, t, Serving(th.job.n, th.job.num))
    case Throw => Become(s, t, Free)
  }

  /** The thread owes the run queue a token. */
  function Owing(s: State, t: nat, n: nat): State
    requires t < |s.threads|
  {
    s.(threads := s.threads[t := s.threads[t].(debt := Token(n))])
  }

  /** The state after a send: the thread owes a token, and the message is in the mailbox if it was accepted. */
  function Sent(s: State, t: nat, to: nat, sent: Message, now: nat, accepted: bool): State
    requires t < |s.threads| && to < |s.mail| == |s.books|
  {
    Deliver(Owing(s, t, to), to, sent, now, accepted)
  }

  function Deliver(s: State, n: nat, message: Message, now: nat, accepted: bool): State
    requires n < |s.mail| == |s.books|
  {
    if accepted then Accept(s, n, message, now) else s
  }

  function Accept(s: State, n: nat, message: Message, now: nat): State
    requires n < |s.mail| == |s.books|
  {
    s.(mail := s.mail[n := Push(s.mail[n], message, now)], queued := s.queued + 1, all := s.all + 1,
       books := s.books[n := BookIn(s.books[n], message, now)])
  }

  function BookIn(b: Book, message: Message, now: nat): Book {
    if message.delay == 0 then b.(plainIn := b.plainIn + [message])
    else b.(delayedIn := b.delayedIn + multiset{Timed(now + message.delay, message)})
  }

  function BookOut(b: Book, m: Mail, top: Timed): Book {
    if m.plain != [] then b.(plainOut := b.plainOut + [m.plain[0]])
    else b.(delayedOut := b.delayedOut + multiset{top})
  }

  /** One pass of the inner worker loop. */
  function ServeNext(s: State, t: nat, n: nat, num: nat, now: nat, top: Timed): State
    requires t < |s.threads| && n < |s.mail| == |s.books|
  {
    if num > BATCH then Become(s, t, Free).(tokens := s.tokens + multiset{n})
    else
      var m := s.mail[n];
      match LookIn(m, now, top)
      case Empty => Become(s, t, Free)
      case NotYet => Become(s, t, Requeueing(n))
      case Popped(_) =>
        Become(s, t, Handling(n, num + 1)).(
          mail := s.mail[n := Pop(m, now, top)], queued := s.queued - 1,
          books := s.books[n := BookOut(s.books[n], m, top)])
  }

  function Init(nodes: nat, crew: seq<bool>): State {
    State(seq(nodes, _ => Mail([], multiset{})), multiset{},
          seq(|crew|, t requires 0 <= t < |crew| => Thread(if crew[t] then Free else Outsider, Nothing)),
          0, 0, seq(nodes, _ => Book([], [], multiset{}, multiset{})))
  }

  /** One entry of a run: a thread and what it does. */
  datatype Move = Move(t: nat, a: Action)

  /** The state after a run of a crew of workers (true) and outsiders (false). A move that is not possible
    * when its turn comes does nothing. */
  function Run(nodes: nat, crew: seq<bool>, moves: seq<Move>): (s: State)
    ensures |s.mail| == |s.books| == nodes && |s.threads| == |crew|
  {
    if moves == [] then Init(nodes, crew)
    else
      var s, move := Run(nodes, crew, moves[..|moves| - 1]), moves[|moves| - 1];
      if Enabled(s, move.t, move.a) then Next(s, move.t, move.a) else s
  }

  // ---------------------------------------------------------------- no message is stranded

  /** The tokens for node n that a thread still has to put into the run queue, or took out without having
    * looked into the mailbox since. */
  function Pledged(n: nat, th: Thread): nat {
    (if th.debt == Token(n) then 1 else 0) +
    (if th.job == Serving(n, 0) || th.job == Requeueing(n) then 1 else 0)
  }

  function Pledge(n: nat): Thread -> nat {
    th => Pledged(n, th)
  }

  ghost predicate Covered(s: State, n: nat)
    requires n < |s.mail|
  {
    Size(s.mail[n]) <= s.tokens[n] + Sum(s.threads, Pledge(n))
  }

  ghost predicate AllCovered(s: State) {
    forall n {:trigger Covered(s, n)} :: 0 <= n < |s.mail| ==> Covered(s, n)
  }

  /** Everything that went in came out in order or is still there. */
  ghost predicate Balanced(b: Book, m: Mail) {
    b.plainIn == b.plainOut + m.plain && b.delayedIn == b.delayedOut + m.delayed
  }

  ghost predicate AllBalanced(mail: seq<Mail>, books: seq<Book>) {
    |books| == |mail| && forall n {:trigger books[n]} :: 0 <= n < |mail| ==> Balanced(books[n], mail[n])
  }

  ghost predicate BooksInv(mail: seq<Mail>, books: seq<Book>, queued: int, all: nat) {
    AllBalanced(mail, books) && queued == Sum(mail, Size) && all == queued + Sum(books, Out)
  }

  ghost predicate InRange(s: State) {
    && (forall n: nat {:trigger s.tokens[n]} :: s.tokens[n] > 0 ==> n < |s.mail|)
    && (forall t {:trigger s.threads[t]} :: 0 <= t < |s.threads| ==> ThreadInRange(s.threads[t], |s.mail|))
  }

  predicate ThreadInRange(th: Thread, nodes: nat) {
    && (th.debt.Token? ==> th.debt.n < nodes && (th.job.Outsider? || th.job.Handling?))
    && (th.job.Serving? || th.job.Handling? || th.job.Requeueing? ==> th.job.n < nodes)
    && (th.job.Handling? ==> th.job.num > 0)
  }

  ghost predicate Inv(s: State) {
    AllCovered(s) && InRange(s) && BooksInv(s.mail, s.books, s.queued, s.all)
  }

  function Out(b: Book): nat {
    |b.plainOut| + |b.delayedOut|
  }

  lemma PushGrows(m: Mail, b: Book, message: Message, now: nat)
    ensures Size(Push(m, message, now)) == Size(m) + 1
    ensures Out(BookIn(b, message, now)) == Out(b)
    ensures Balanced(b, m) ==> Balanced(BookIn(b, message, now), Push(m, message, now))
  {
    if message.delay == 0 && Balanced(b, m) {
      assert b.plainOut + (m.plain + [message]) == (b.plainOut + m.plain) + [message];
    }
  }

  lemma PopShrinks(m: Mail, b: Book, now: nat, top: Timed)
    requires LookIn(m, now, top).Popped? && (m.plain == [] ==> top in m.delayed)
    ensures Size(m) == Size(Pop(m, now, top)) + 1
    ensures Out(BookOut(b, m, top)) == Out(b) + 1
    ensures Balanced(b, m) ==> Balanced(BookOut(b, m, top), Pop(m, now, top))
  {
    if m.plain != [] {
      if Balanced(b, m) {
        assert b.plainOut + m.plain == b.plainOut + [m.plain[0]] + m.plain[1..];
      }
    } else {
      assert m.delayed == m.delayed - multiset{top} + multiset{top};
    }
  }

  /** A step that moves one thread and perhaps one token keeps a node covered if the node's tokens and the
    * thread's pledge grow with its mailbox. */
  lemma StillCovered(s: State, s': State, t: nat, n: nat)
    requires t < |s.threads| && n < |s.mail| && n < |s'.mail| && Covered(s, n)
    requires |s'.threads| == |s.threads| && s'.threads == s.threads[t := s'.threads[t]]
    requires Size(s'.mail[n]) + s.tokens[n] + Pledged(n, s.threads[t]) <=
             Size(s.mail[n]) + s'.tokens[n] + Pledged(n, s'.threads[t])
    ensures Covered(s', n)
  {
    SumUpdate(s.threads, t, s'.threads[t], Pledge(n));
  }

  /** One mailbox and its book change together. */
  lemma BooksStep(mail: seq<Mail>, books: seq<Book>, queued: int, all: nat, n: nat, m: Mail, b: Book)
    requires BooksInv(mail, books, queued, all) && n < |mail| && Balanced(b, m)
    requires Out(b) + Size(m) >= Out(books[n]) + Size(mail[n])
    ensures BooksInv(mail[n := m], books[n := b], queued + Size(m) - Size(mail[n]),
                     all + (Out(b) + Size(m)) - (Out(books[n]) + Size(mail[n])))
  {
    SumUpdate(mail, n, m, Size);
    SumUpdate(books, n, b, Out);
  }

  lemma SentCovered(s: State, t: nat, to: nat, sent: Message, now: nat, accepted: bool, n: nat)
    requires t < |s.threads| && to < |s.mail| == |s.books| && s.threads[t].debt.Nothing?
    requires n < |s.mail| && Covered(s, n)
    ensures Covered(Sent(s, t, to, sent, now, accepted), n)
  {
    PushGrows(s.mail[to], s.books[to], sent, now);
    StillCovered(s, Sent(s, t, to, sent, now, accepted), t, n);
  }

  /** Putting a message into a mailbox and into the books, or refusing it, keeps them balanced. */
  lemma AcceptKeepsBooks(s: State, n: nat, sent: Message, now: nat, accepted: bool)
    requires n < |s.mail| && BooksInv(s.mail, s.books, s.queued, s.all)
    ensures var r := Deliver(s, n, sent, now, accepted); BooksInv(r.mail, r.books, r.queued, r.all)
  {
    if accepted {
      assert Balanced(s.books[n], s.mail[n]);
      PushGrows(s.mail[n], s.books[n], sent, now);
      OneMoreKeepsBooks(s.mail, s.books, s.queued, s.all, n, Push(s.mail[n], sent, now), BookIn(s.books[n], sent, now));
    }
  }

  lemma OneMoreKeepsBooks(mail: seq<Mail>, books: seq<Book>, queued: int, all: nat, n: nat, m: Mail, b: Book)
    requires BooksInv(mail, books, queued, all) && n < |mail| && Balanced(b, m)
    requires Size(m) == Size(mail[n]) + 1 && Out(b) == Out(books[n])
    ensures BooksInv(mail[n := m], books[n := b], queued + 1, all + 1)
  {
    BooksStep(mail, books, queued, all, n, m, b);
  }

  lemma SentInRange(s: State, t: nat, to: nat, sent: Message, now: nat, accepted: bool)
    requires InRange(s) && t < |s.threads| && to < |s.mail| == |s.books|
    requires s.threads[t].job.Outsider? || s.threads[t].job.Handling?
    ensures InRange(Sent(s, t, to, sent, now, accepted))
  {
    assert ThreadInRange(s.threads[t], |s.mail|);
  }

  lemma SentKeepsInv(s: State, t: nat, to: nat, sent: Message, now: nat, accepted: bool)
    requires Inv(s) && t < |s.threads| && to < |s.mail|
    requires s.threads[t].debt.Nothing? && (s.threads[t].job.Outsider? || s.threads[t].job.Handling?)
    ensures Inv(Sent(s, t, to, sent, now, accepted))
  {
    AcceptKeepsBooks(Owing(s, t, to), to, sent, now, accepted);
    SentInRange(s, t, to, sent, now, accepted);
    forall n | 0 <= n < |s.mail|
      ensures Covered(Sent(s, t, to, sent, now, accepted), n)
    {
      assert Covered(s, n);
      SentCovered(s, t, to, sent, now, accepted, n);
    }
  }

  lemma SendIsSent(s: State, t: nat, to: nat, message: Message, now: nat, accepted: bool)
    requires Enabled(s, t, Send(to, message, now, accepted)) && |s.books| == |s.mail|
    ensures t < |s.threads| && to < |s.mail| && s.threads[t].debt.Nothing?
    ensures s.threads[t].job.Outsider? || s.threads[t].job.Handling?
    ensures Next(s, t, Send(to, message, now, accepted)) ==
            Sent(s, t, to, message.(hops := message.hops + 1), now, accepted)
  {
  }

  lemma SendKeepsInv(s: State, t: nat, to: nat, message: Message, now: nat, accepted: bool)
    requires Inv(s) && Enabled(s, t, Send(to, message, now, accepted))
    ensures Inv(Next(s, t, Send(to, message, now, accepted)))
  {
    SendIsSent(s, t, to, message, now, accepted);
    SentKeepsInv(s, t, to, message.(hops := message.hops + 1), now, accepted);
  }

  lemma HandKeepsInv(s: State, t: nat, now: nat, top: Timed)
    requires Inv(s) && Enabled(s, t, Serve(now, top))
    requires s.threads[t].job.num <= BATCH && LookIn(s.mail[s.threads[t].job.n], now, top).Popped?
    ensures Inv(Next(s, t, Serve(now, top)))
  {
    var s', n := Next(s, t, Serve(now, top)), s.threads[t].job.n;
    var m, b := s.mail[n], s.books[n];
    PopShrinks(m, b, now, top);
    assert Balanced(b, m);
    BooksStep(s.mail, s.books, s.queued, s.all, n, Pop(m, now, top), BookOut(b, m, top));
    forall k | 0 <= k < |s'.mail|
      ensures Covered(s', k)
    {
      StillCovered(s, s', t, k);
    }
  }

  lemma IdleServeKeepsCovered(s: State, t: nat, now: nat, top: Timed, k: nat)
    requires Enabled(s, t, Serve(now, top)) && |s.books| == |s.mail|
    requires s.threads[t].job.num > BATCH || !LookIn(s.mail[s.threads[t].job.n], now, top).Popped?
    requires k < |s.mail| && Covered(s, k)
    ensures Covered(Next(s, t, Serve(now, top)), k)
  {
    if Size(s.mail[k]) > 0 || k != s.threads[t].job.n {
      StillCovered(s, Next(s, t, Serve(now, top)), t, k);
    }
  }

  lemma ServeKeepsInv(s: State, t: nat, now: nat, top: Timed)
    requires Inv(s) && Enabled(s, t, Serve(now, top))
    ensures Inv(Next(s, t, Serve(now, top)))
  {
    var s', n, num := Next(s, t, Serve(now, top)), s.threads[t].job.n, s.threads[t].job.num;
    if num <= BATCH && LookIn(s.mail[n], now, top).Popped? {
      HandKeepsInv(s, t, now, top);
    } else {
      forall k | 0 <= k < |s'.mail|
        ensures Covered(s', k)
      {
        assert Covered(s, k);
        IdleServeKeepsCovered(s, t, now, top, k);
      }
    }
  }

  lemma TokenKeepsInv(s: State, t: nat, a: Action)
    requires Inv(s) && Enabled(s, t, a) && !a.Send? && !a.Serve?
    ensures Inv(Next(s, t, a))
  {
    var s' := Next(s, t, a);
    forall n | 0 <= n < |s'.mail|
      ensures Covered(s', n)
    {
      StillCovered(s, s', t, n);
    }
  }

  lemma StepKeepsInv(s: State, t: nat, a: Action)
    requires Inv(s) && Enabled(s, t, a)
    ensures Inv(Next(s, t, a))
  {
    match a
    case Send(to, message, now, accepted) => SendKeepsInv(s, t, to, message, now, accepted);
    case Serve(now, top) => ServeKeepsInv(s, t, now, top);
    case _ => TokenKeepsInv(s, t, a);
  }

  lemma {:induction false} RunInv(nodes: nat, crew: seq<bool>, moves: seq<Move>)
    ensures Inv(Run(nodes, crew, moves))
  {
    if moves == [] {
      var s := Init(nodes, crew);
      SumZero(s.mail, Size);
      SumZero(s.books, Out);
    } else {
      RunInv(nodes, crew, moves[..|moves| - 1]);
      var s, move := Run(nodes, crew, moves[..|moves| - 1]), moves[|moves| - 1];
      if Enabled(s, move.t, move.a) {
        StepKeepsInv(s, move.t, move.a);
      }
    }
  }

  /** In every run, whatever handlers throw and whichever visits come too early: a node with mail has a
    * token in the run queue, or some thread is about to put one there or to look into its mailbox. */
  lemma NoMessageStranded(nodes: nat, crew: seq<bool>, moves: seq<Move>, n: nat)
    requires n < nodes
    ensures var s := Run(nodes, crew, moves);
      && Size(s.mail[n]) <= s.tokens[n] + Sum(s.threads, Pledge(n))
      && (Size(s.mail[n]) > 0 ==> n in s.tokens || exists t :: 0 <= t < |s.threads| && Pledged(n, s.threads[t]) > 0)
  {
    var s := Run(nodes, crew, moves);
    RunInv(nodes, crew, moves);
    assert Covered(s, n);
    SumZero(s.threads, Pledge(n));
  }

  /** Nothing left to do for anybody but to send something new. */
  predicate Quiescent(s: State) {
    s.tokens == multiset{} && forall th :: th in s.threads ==> (th.job.Outsider? || th.job.Free?) && th.debt.Nothing?
  }

  /** At rest every mailbox is empty: what was sent to a node and accepted was handled by it, the undelayed messages
    * in the order in which they came, the delayed ones each once. */
  lemma AtRestAllIsHandled(nodes: nat, crew: seq<bool>, moves: seq<Move>, n: nat)
    requires n < nodes && Quiescent(Run(nodes, crew, moves))
    ensures var s := Run(nodes, crew, moves);
      && s.mail[n] == Mail([], multiset{})
      && s.books[n].plainOut == s.books[n].plainIn == SentPlain(nodes, crew, moves, n)
      && s.books[n].delayedOut == s.books[n].delayedIn == SentDelayed(nodes, crew, moves, n)
      && s.queued == 0
  {
    var s := Run(nodes, crew, moves);
    RunInv(nodes, crew, moves);
    BookedIsSent(nodes, crew, moves, n);
    forall k | 0 <= k < |s.mail|
      ensures Size(s.mail[k]) == 0
    {
      assert Covered(s, k);
      SumZero(s.threads, Pledge(k));
    }
    SumZero(s.mail, Size);
    assert Balanced(s.books[n], s.mail[n]);
  }

  /** In every run the handled messages of a node are a prefix of those sent to it and accepted, and the static counters
    * say how many wait and how many were ever accepted. */
  lemma NothingIsLost(nodes: nat, crew: seq<bool>, moves: seq<Move>, n: nat)
    requires n < nodes
    ensures var s := Run(nodes, crew, moves);
      && SentPlain(nodes, crew, moves, n) == s.books[n].plainIn == s.books[n].plainOut + s.mail[n].plain
      && SentDelayed(nodes, crew, moves, n) == s.books[n].delayedIn == s.books[n].delayedOut + s.mail[n].delayed
      && s.queued == Sum(s.mail, Size) && s.all == s.queued + Sum(s.books, Out)
  {
    RunInv(nodes, crew, moves);
    BookedIsSent(nodes, crew, moves, n);
    assert Balanced(Run(nodes, crew, moves).books[n], Run(nodes, crew, moves).mail[n]);
  }

  // ---------------------------------------------------------------- what was sent

  /** The move sends a message to node n, and n accepts it. */
  predicate Reaches(s: State, move: Move, n: nat) {
    Enabled(s, move.t, move.a) && move.a.Send? && move.a.accepted && move.a.to == n
  }

  /** The undelayed message a move sends to node n, with one hop more, and the delayed one, with the time from which
    * it may be handled. */
  function PlainTo(s: State, move: Move, n: nat): seq<Message> {
    if Reaches(s, move, n) && move.a.message.delay == 0
    then [move.a.message.(hops := move.a.message.hops + 1)] else []
  }

  function DelayedTo(s: State, move: Move, n: nat): multiset<Timed> {
    if Reaches(s, move, n) && move.a.message.delay > 0
    then multiset{Timed(move.a.now + move.a.message.delay, move.a.message.(hops := move.a.message.hops + 1))}
    else multiset{}
  }

  /** All the undelayed messages sent to node n in a run and accepted, in order, and all the delayed ones. */
  function SentPlain(nodes: nat, crew: seq<bool>, moves: seq<Move>, n: nat): seq<Message> {
    if moves == [] then []
    else
      var front, move := moves[..|moves| - 1], moves[|moves| - 1];
      SentPlain(nodes, crew, front, n) + PlainTo(Run(nodes, crew, front), move, n)
  }

  function SentDelayed(nodes: nat, crew: seq<bool>, moves: seq<Move>, n: nat): multiset<Timed> {
    if moves == [] then multiset{}
    else
      var front, move := moves[..|moves| - 1], moves[|moves| - 1];
      SentDelayed(nodes, crew, front, n) + DelayedTo(Run(nodes, crew, front), move, n)
  }

  lemma StepBooks(s: State, t: nat, a: Action, n: nat)
    requires Enabled(s, t, a) && |s.books| == |s.mail| && n < |s.mail|
    ensures Next(s, t, a).books[n].plainIn == s.books[n].plainIn + PlainTo(s, Move(t, a), n)
    ensures Next(s, t, a).books[n].delayedIn == s.books[n].delayedIn + DelayedTo(s, Move(t, a), n)
  {
    match a
    case Send(to, message, now, accepted) =>
      SendIsSent(s, t, to, message, now, accepted);
      SentIsBooked(s, t, to, message.(hops := message.hops + 1), now, accepted, n);
    case _ => OthersBookNothingIn(s, t, a, n);
  }

  lemma SentIsBooked(s: State, t: nat, to: nat, sent: Message, now: nat, accepted: bool, n: nat)
    requires t < |s.threads| && to < |s.mail| == |s.books| && n < |s.mail|
    ensures var b, b' := s.books[n], Sent(s, t, to, sent, now, accepted).books[n];
      && b'.plainIn == b.plainIn + (if accepted && to == n && sent.delay == 0 then [sent] else [])
      && b'.delayedIn == b.delayedIn +
           (if accepted && to == n && sent.delay > 0 then multiset{Timed(now + sent.delay, sent)} else multiset{})
  {
  }

  lemma OthersBookNothingIn(s: State, t: nat, a: Action, n: nat)
    requires Enabled(s, t, a) && |s.books| == |s.mail| && n < |s.mail| && !a.Send?
    ensures Next(s, t, a).books[n].plainIn == s.books[n].plainIn
    ensures Next(s, t, a).books[n].delayedIn == s.books[n].delayedIn
  {
  }

  /** What a node's mailbox ever took in is what was sent to that node. */
  lemma {:induction false} BookedIsSent(nodes: nat, crew: seq<bool>, moves: seq<Move>, n: nat)
    requires n < nodes
    ensures var s := Run(nodes, crew, moves);
      s.books[n].plainIn == SentPlain(nodes, crew, moves, n) && s.books[n].delayedIn == SentDelayed(nodes, crew, moves, n)
  {
    if moves != [] {
      var front, move := moves[..|moves| - 1], moves[|moves| - 1];
      BookedIsSent(nodes, crew, front, n);
      var s := Run(nodes, crew, front);
      if Enabled(s, move.t, move.a) {
        StepBooks(s, move.t, move.a, n);
      }
    }
  }

  /** A worker handles the undelayed messages sent to the node first, in order, and of the delayed ones sent to it
    * one that is due; it looks again later only while none is, and gives up only on an empty mailbox or after 129
    * messages. */
  lemma HandsOverWhatIsDue(nodes: nat, crew: seq<bool>, moves: seq<Move>, t: nat, now: nat, top: Timed)
    requires var s := Run(nodes, crew, moves);
      Enabled(s, t, Serve(now, top)) && Next(s, t, Serve(now, top)).threads[t].job.Handling?
    ensures var s, s' := Run(nodes, crew, moves), Next(Run(nodes, crew, moves), t, Serve(now, top));
      var n := s.threads[t].job.n;
      HandsOver(s.books[n], s'.books[n], SentPlain(nodes, crew, moves, n), SentDelayed(nodes, crew, moves, n), now)
  {
    var s := Run(nodes, crew, moves);
    var n := s.threads[t].job.n;
    RunInv(nodes, crew, moves);
    BookedIsSent(nodes, crew, moves, n);
    assert Balanced(s.books[n], s.mail[n]);
    OneHandedOver(s, t, now, top);
  }

  /** One message more came out: the next of the undelayed ones, or, when all of them did, a delayed one that is due. */
  ghost predicate HandsOver(b: Book, b': Book, plain: seq<Message>, delayed: multiset<Timed>, now: nat) {
    var done := |b.plainOut|;
    if done < |plain| then b' == b.(plainOut := plain[..done + 1])
    else exists x :: x in delayed - b.delayedOut && x.due <= now && b' == b.(delayedOut := b.delayedOut + multiset{x})
  }

  lemma OneHandedOver(s: State, t: nat, now: nat, top: Timed)
    requires Enabled(s, t, Serve(now, top)) && |s.books| == |s.mail|
    requires Next(s, t, Serve(now, top)).threads[t].job.Handling?
    requires var n := s.threads[t].job.n; Balanced(s.books[n], s.mail[n])
    ensures var n := s.threads[t].job.n;
      var b := s.books[n];
      HandsOver(b, Next(s, t, Serve(now, top)).books[n], b.plainIn, b.delayedIn, now)
  {
    var n := s.threads[t].job.n;
    var b, m := s.books[n], s.mail[n];
    if m.plain != [] {
      assert b.plainIn[..|b.plainOut| + 1] == b.plainOut + [m.plain[0]];
    } else {
      assert b.delayedIn - b.delayedOut == m.delayed;
      assert top in b.delayedIn - b.delayedOut;
    }
  }

  lemma LeavesOnlyForAReason(nodes: nat, crew: seq<bool>, moves: seq<Move>, t: nat, now: nat, top: Timed)
    requires var s := Run(nodes, crew, moves);
      Enabled(s, t, Serve(now, top)) && !Next(s, t, Serve(now, top)).threads[t].job.Handling?
    ensures var s, s' := Run(nodes, crew, moves), Next(Run(nodes, crew, moves), t, Serve(now, top));
      var n, num := s.threads[t].job.n, s.threads[t].job.num;
      && s'.mail == s.mail && s'.books == s.books
      && (num > 128 || s.mail[n] == Mail([], multiset{}) ||
           (s.mail[n].plain == [] && s'.threads[t].job == Requeueing(n) && forall x :: x in s.mail[n].delayed ==> now < x.due))
  {
  }

  // ---------------------------------------------------------------- runs come to rest

  function Weight(th: Thread): nat {
    (if th.debt.Token? then 3 else 0) +
    match th.job
    case Serving(_, num) => 1 + 2 * num
    case Handling(_, num) => 2 + 2 * num
    case Requeueing(_) => 3
    case _ => 0
  }

  ghost function Potential(s: State): nat {
    4 * Sum(s.mail, Size) + 2 * |s.tokens| + Sum(s.threads, Weight)
  }

  /** A look into a mailbox whose first message is not due yet. */
  predicate TooEarly(s: State, t: nat, a: Action)
    requires Enabled(s, t, a)
  {
    a.Serve? && s.threads[t].job.num <= BATCH && LookIn(s.mail[s.threads[t].job.n], a.now, a.top).NotYet?
  }

  /** What a step may add to the potential; all but sends and early visits use it up. */
  function Cost(s: State, t: nat, a: Action): int
    requires Enabled(s, t, a)
  {
    if a.Send? then 7 else if TooEarly(s, t, a) then 2 else -1
  }

  lemma SendPays(s: State, t: nat, to: nat, message: Message, now: nat, accepted: bool)
    requires |s.books| == |s.mail| && Enabled(s, t, Send(to, message, now, accepted))
    ensures Potential(Next(s, t, Send(to, message, now, accepted))) <= Potential(s) + 7
  {
    SumUpdate(s.threads, t, s.threads[t].(debt := Token(to)), Weight);
    var sent := message.(hops := message.hops + 1);
    PushGrows(s.mail[to], s.books[to], sent, now);
    SumUpdate(s.mail, to, Push(s.mail[to], sent, now), Size);
  }

  lemma HandPays(s: State, t: nat, now: nat, top: Timed)
    requires |s.books| == |s.mail| && Enabled(s, t, Serve(now, top))
    requires s.threads[t].job.num <= BATCH && LookIn(s.mail[s.threads[t].job.n], now, top).Popped?
    ensures Potential(Next(s, t, Serve(now, top))) < Potential(s)
  {
    var n, num := s.threads[t].job.n, s.threads[t].job.num;
    SumUpdate(s.threads, t, Thread(Handling(n, num + 1), Nothing), Weight);
    PopShrinks(s.mail[n], s.books[n], now, top);
    SumUpdate(s.mail, n, Pop(s.mail[n], now, top), Size);
  }

  lemma ServePays(s: State, t: nat, now: nat, top: Timed)
    requires |s.books| == |s.mail| && Enabled(s, t, Serve(now, top))
    ensures Potential(Next(s, t, Serve(now, top))) <= Potential(s) + Cost(s, t, Serve(now, top))
  {
    if s.threads[t].job.num <= BATCH && LookIn(s.mail[s.threads[t].job.n], now, top).Popped? {
      HandPays(s, t, now, top);
    } else {
      SumUpdate(s.threads, t, Next(s, t, Serve(now, top)).threads[t], Weight);
    }
  }

  lemma StepPays(s: State, t: nat, a: Action)
    requires Inv(s) && Enabled(s, t, a)
    ensures Potential(Next(s, t, a)) <= Potential(s) + Cost(s, t, a)
  {
    match a
    case Send(to, message, now, accepted) => SendPays(s, t, to, message, now, accepted);
    case Serve(now, top) => ServePays(s, t, now, top);
    case _ => SumUpdate(s.threads, t, Next(s, t, a).threads[t], Weight);
  }

  datatype Tally = Tally(sends: nat, early: nat, others: nat)

  /** The steps of a run by kind, not counting moves that did nothing. */
  ghost function Count(nodes: nat, crew: seq<bool>, moves: seq<Move>): Tally {
    if moves == [] then Tally(0, 0, 0)
    else
      var s, move := Run(nodes, crew, moves[..|moves| - 1]), moves[|moves| - 1];
      var c := Count(nodes, crew, moves[..|moves| - 1]);
      if !Enabled(s, move.t, move.a) then c
      else if move.a.Send? then c.(sends := c.sends + 1)
      else if TooEarly(s, move.t, move.a) then c.(early := c.early + 1)
      else c.(others := c.others + 1)
  }

  /** Every run takes at most seven further steps for each message sent and two for each visit that came
    * too early: once nothing new is sent and all mail is due, the run ends. */
  lemma {:induction false} RunsEnd(nodes: nat, crew: seq<bool>, moves: seq<Move>)
    ensures var c := Count(nodes, crew, moves);
      Potential(Run(nodes, crew, moves)) + c.others <= 7 * c.sends + 2 * c.early
  {
    if moves == [] {
      var s := Init(nodes, crew);
      SumZero(s.mail, Size);
      SumZero(s.threads, Weight);
    } else {
      var front := moves[..|moves| - 1];
      var s, move := Run(nodes, crew, front), moves[|moves| - 1];
      RunsEnd(nodes, crew, front);
      RunInv(nodes, crew, front);
      if Enabled(s, move.t, move.a) {
        StepPays(s, move.t, move.a);
      }
    }
  }

  /** A thread that has something to do can do it. */
  lemma BusyThreadCanMove(s: State, t: nat)
    requires Inv(s) && t < |s.threads|
    requires s.threads[t].debt.Token? || !(s.threads[t].job.Outsider? || s.threads[t].job.Free?)
    ensures exists a: Action :: !a.Send? && Enabled(s, t, a)
  {
    var th := s.threads[t];
    assert ThreadInRange(th, |s.mail|);
    if th.debt.Token? {
      assert Enabled(s, t, Pay);
    } else {
      match th.job
      case Serving(n, _) =>
        var any := Timed(0, Message(0, 0, 0));
        if s.mail[n].delayed == multiset{} {
          assert Enabled(s, t, Serve(0, any));
        } else {
          TopExists(s.mail[n].delayed);
          var top :| IsTop(s.mail[n].delayed, top);
          assert Enabled(s, t, Serve(0, top));
        }
      case Handling(_, _) => assert Enabled(s, t, Return);
      case Requeueing(_) => assert Enabled(s, t, PutBack);
    }
  }

  lemma StepKeepsRole(s: State, u: nat, a: Action, t: nat)
    requires Enabled(s, u, a) && |s.books| == |s.mail| && t < |s.threads|
    ensures Next(s, u, a).threads[t].job.Outsider? <==> s.threads[t].job.Outsider?
  {
  }

  /** The steps never change who is a worker. */
  lemma {:induction false} CrewStays(nodes: nat, crew: seq<bool>, moves: seq<Move>, t: nat)
    requires t < |crew|
    ensures Run(nodes, crew, moves).threads[t].job.Outsider? <==> !crew[t]
  {
    if moves != [] {
      var front := moves[..|moves| - 1];
      var s, move := Run(nodes, crew, front), moves[|moves| - 1];
      CrewStays(nodes, crew, front, t);
      if Enabled(s, move.t, move.a) {
        StepKeepsRole(s, move.t, move.a, t);
      }
    }
  }

  /** With at least one worker, a run that is not at rest can go on without anything new being sent. */
  lemma NoDeadlock(nodes: nat, crew: seq<bool>, moves: seq<Move>, w: nat)
    requires w < |crew| && crew[w]
    requires !Quiescent(Run(nodes, crew, moves))
    ensures var s := Run(nodes, crew, moves); exists t: nat, a: Action :: !a.Send? && Enabled(s, t, a)
  {
    var s := Run(nodes, crew, moves);
    RunInv(nodes, crew, moves);
    CrewStays(nodes, crew, moves, w);
    if t :| 0 <= t < |s.threads| &&
            (s.threads[t].debt.Token? || !(s.threads[t].job.Outsider? || s.threads[t].job.Free?)) {
      BusyThreadCanMove(s, t);
    } else {
      var n :| n in s.tokens;
      assert Enabled(s, w, Take(n));
    }
  }
}

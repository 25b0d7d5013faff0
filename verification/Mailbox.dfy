/** The two message queues of a node, `messages` and `delayed_messages`. */
module Mailbox {

  datatype Message = Message(data: nat, hops: nat, delay: nat)

  /** A delayed message with the time from which it may be handled. */
  datatype Timed = Timed(due: nat, message: Message)

  datatype Mail = Mail(plain: seq<Message>, delayed: multiset<Timed>)

  /** What a look into the mailbox yields: nothing, a message whose time has not come, or a message. */
  datatype Look = Empty | NotYet | Popped(message: Message)

  function Size(m: Mail): nat {
    |m.plain| + |m.delayed|
  }

  /** `top` may be the top of the heap of delayed messages; nothing is known of equal times. */
  predicate IsTop(delayed: multiset<Timed>, top: Timed) {
    top in delayed && forall x :: x in delayed ==> top.due <= x.due
  }

  function Push(m: Mail, message: Message, now: nat): Mail {
    if message.delay == 0 then m.(plain := m.plain + [message])
    else m.(delayed := m.delayed + multiset{Timed(now + message.delay, message)})
  }

  function LookIn(m: Mail, now: nat, top: Timed): Look {
    if m.plain != [] then Popped(m.plain[0])
    else if m.delayed == multiset{} then Empty
    else if top.due > now then NotYet
    else Popped(top.message)
  }

  function Pop(m: Mail, now: nat, top: Timed): Mail {
    if m.plain != [] then m.(plain := m.plain[1..])
    else if LookIn(m, now, top).Popped? then m.(delayed := m.delayed - multiset{top})
    else m
  }

  lemma {:induction false} TopExists(delayed: multiset<Timed>)
    requires delayed != multiset{}
    ensures exists top :: IsTop(delayed, top)
    decreases |delayed|
  {
    var x :| x in delayed;
    var rest := delayed - multiset{x};
    if rest == multiset{} {
      assert forall y :: y in delayed ==> y == x || y in rest;
      assert IsTop(delayed, x);
    } else {
      TopExists(rest);
      var y :| IsTop(rest, y);
      assert forall z :: z in delayed ==> z == x || z in rest;
      assert IsTop(delayed, if x.due <= y.due then x else y);
    }
  }

  /** The static counters shared by all nodes. */
  class Counters {
    var queued: int
    var all: nat

    constructor ()
      ensures queued == 0 && all == 0
    {
      queued, all := 0, 0;
    }
  }

  class Node {
    const counters: Counters
    var messages: seq<Message>
    var delayedMessages: multiset<Timed>

    constructor (counters: Counters)
      ensures this.counters == counters && View() == Mail([], multiset{})
    {
      this.counters := counters;
      messages, delayedMessages := [], multiset{};
    }

    function View(): Mail
      reads this
    {
      Mail(messages, delayedMessages)
    }

    /** `handle_one_message` up to the call of `handle_message`: the code it returns, and the message the
      * handler gets. Undelayed messages go first, in the order they came; of the delayed ones the one
      * due first goes, not before its time. */
    method HandleOneMessage(now: nat) returns (ret: int, look: Look)
      modifies this, counters
      ensures exists top :: (old(messages) == [] && old(delayedMessages) != multiset{} ==> IsTop(old(delayedMessages), top))
                && look == LookIn(old(View()), now, top) && View() == Pop(old(View()), now, top)
      ensures ret == match look case Empty => 0 case NotYet => -1 case Popped(_) => 1
      ensures ret == 0 <==> old(messages) == [] && old(delayedMessages) == multiset{}
      ensures ret == -1 <==>
                old(messages) == [] && old(delayedMessages) != multiset{} && forall x :: x in old(delayedMessages) ==> now < x.due
      ensures ret == 1 && old(messages) != [] ==>
                look.message == old(messages)[0] && messages == old(messages)[1..] && delayedMessages == old(delayedMessages)
      ensures ret == 1 && old(messages) == [] ==>
                exists x :: x in old(delayedMessages) && x.due <= now && x.message == look.message
                  && messages == [] && delayedMessages == old(delayedMessages) - multiset{x}
      ensures counters.queued == old(counters.queued) - (if ret == 1 then 1 else 0)
      ensures counters.all == old(counters.all)
      ensures Size(View()) == old(Size(View())) - (if ret == 1 then 1 else 0)
    {
      ghost var some := Timed(0, Message(0, 0, 0));
      if messages != [] {
        look := Popped(messages[0]);
        messages := messages[1..];
        counters.queued := counters.queued - 1;
        ret := 1;
        assert look == LookIn(old(View()), now, some) && View() == Pop(old(View()), now, some);
      } else if delayedMessages != multiset{} {
        TopExists(delayedMessages);
        var top :| IsTop(delayedMessages, top);
        if top.due > now {
          ret, look := -1, NotYet;
        } else {
          look := Popped(top.message);
          delayedMessages := delayedMessages - multiset{top};
          counters.queued := counters.queued - 1;
          ret := 1;
        }
        assert look == LookIn(old(View()), now, top) && View() == Pop(old(View()), now, top);
      } else {
        ret, look := 0, Empty;
        assert look == LookIn(old(View()), now, some) && View() == Pop(old(View()), now, some);
      }
    }

    /** `enqueue`, with the verdict of `check_enqueue` given. */
    method Enqueue(message: Message, now: nat, accepted: bool)
      modifies this, counters
      ensures View() == if accepted then Push(old(View()), message, now) else old(View())
      ensures messages == old(messages) + if accepted && message.delay == 0 then [message] else []
      ensures delayedMessages == old(delayedMessages) +
                if accepted && message.delay > 0 then multiset{Timed(now + message.delay, message)} else multiset{}
      ensures Size(View()) == old(Size(View())) + (if accepted then 1 else 0)
      ensures counters.queued == old(counters.queued) + (if accepted then 1 else 0)
      ensures counters.all == old(counters.all) + (if accepted then 1 else 0)
    {
      if accepted {
        counters.queued := counters.queued + 1;
        counters.all := counters.all + 1;
        if message.delay == 0 {
          messages := messages + [message];
        } else {
          delayedMessages := delayedMessages + multiset{Timed(now + message.delay, message)};
        }
      }
    }
  }
}

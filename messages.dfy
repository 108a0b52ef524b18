/**
 * A platform message handler, reduced to its queue of pending one-shot
 * messages: each has a code (`what`) and the delay it was posted with.
 */
module Messages {
  import opened JavaLang

  datatype Message = Message(what: int, delay: int)

  /** The queue after `removeMessages(what)`: every message with that code is dropped. */
  function Without(queue: seq<Message>, what: int): (r: seq<Message>)
    ensures |r| <= |queue|
    ensures forall m :: m in r <==> m in queue && m.what != what
  {
    if queue == [] then []
    else if queue[0].what == what then Without(queue[1..], what)
    else [queue[0]] + Without(queue[1..], what)
  }

  /**
   * `removeMessages` keeps every other message as often as it was queued:
   * each message with another code keeps its number of copies, and no
   * message with the code is left.
   */
  lemma {:induction false} WithoutKeepsCounts(queue: seq<Message>, what: int, m: Message)
    ensures multiset(Without(queue, what))[m] == if m.what == what then 0 else multiset(queue)[m]
  {
    if queue != [] {
      assert queue == [queue[0]] + queue[1..];
      WithoutKeepsCounts(queue[1..], what, m);
    }
  }

  /**
   * `removeMessages` keeps the queue's order: removing from two queues one
   * after the other is removing from each, and a single message stays
   * exactly when its code differs. Together these fix the result.
   */
  lemma {:induction false} WithoutDistributes(a: seq<Message>, b: seq<Message>, what: int)
    ensures Without(a + b, what) == Without(a, what) + Without(b, what)
  {
    if a != [] {
      assert (a + b)[1..] == a[1..] + b;
      WithoutDistributes(a[1..], b, what);
    } else {
      assert a + b == b;
    }
  }

  lemma WithoutSingle(m: Message, what: int)
    ensures Without([m], what) == if m.what == what then [] else [m]
  {
    assert [m][1..] == [];
  }

  class Handler {
    var pending: seq<Message>

    constructor ()
      ensures pending == []
    {
      pending := [];
    }

    method RemoveMessages(what: int)
      modifies this
      ensures pending == Without(old(pending), what)
    {
      pending := Without(pending, what);
    }

    method SendMessage(what: int)
      modifies this
      ensures pending == old(pending) + [Message(what, 0)]
    {
      pending := pending + [Message(what, 0)];
    }

    method SendMessageDelayed(what: int, delay: int)
      modifies this
      ensures pending == old(pending) + [Message(what, delay)]
    {
      pending := pending + [Message(what, delay)];
    }

    /** The message loop taking the next message off the queue for delivery. */
    method TakeNext() returns (m: Option<Message>)
      modifies this
      ensures old(pending) == [] ==> m.None? && pending == []
      ensures old(pending) != [] ==> m == Some(old(pending)[0]) && pending == old(pending)[1..]
    {
      if pending == [] {
        m := None;
      } else {
        m := Some(pending[0]);
        pending := pending[1..];
      }
    }
  }
}

/**
 The message queue of the RT61 management entity: a ring of ten elements. An element stays
 in its slot while it is handled, although the slot already counts as free.
 */
module MlmeQueue {
  const MAX_LEN_OF_MLME_QUEUE := 10
  const MAX_LEN_OF_MLME_BUFFER := 2048

  datatype Elem<T> = Elem(machine: nat, msgType: nat, msgLen: nat, msg: T)

  function Wrap(i: nat): nat
    requires i <= 2 * MAX_LEN_OF_MLME_QUEUE
  {
    if i < MAX_LEN_OF_MLME_QUEUE then i else if i < 2 * MAX_LEN_OF_MLME_QUEUE then i - MAX_LEN_OF_MLME_QUEUE else 0
  }

  /** The elements from head on. */
  function Line<T>(entry: seq<Elem<T>>, head: nat, num: nat): (s: seq<Elem<T>>)
    requires |entry| == MAX_LEN_OF_MLME_QUEUE && num <= MAX_LEN_OF_MLME_QUEUE && head < MAX_LEN_OF_MLME_QUEUE
    ensures |s| == num
    ensures forall k :: 0 <= k < num ==> s[k] == entry[Wrap(head + k)]
  {
    seq(num, k requires 0 <= k < num => entry[Wrap(head + k)])
  }

  class Queue<T(0)> {
    const entry: array<Elem<T>>
    var num: nat
    var head: nat
    var tail: nat

    ghost predicate Valid()
      reads this
    {
      && entry.Length == MAX_LEN_OF_MLME_QUEUE
      && num <= MAX_LEN_OF_MLME_QUEUE
      && head < MAX_LEN_OF_MLME_QUEUE
      && tail == Wrap(head + num)
    }

    /** The elements that wait, first come first. */
    ghost function Contents(): (s: seq<Elem<T>>)
      requires Valid()
      reads this, entry
      ensures |s| == num
    {
      Line(entry[..], head, num)
    }

    constructor ()
      ensures Valid() && fresh(entry) && Contents() == []
    {
      num, head, tail := 0, 0, 0;
      entry := new Elem<T>[MAX_LEN_OF_MLME_QUEUE];
    }

    predicate Empty()
      reads this
    {
      num == 0
    }

    predicate Full()
      reads this
    {
      num == MAX_LEN_OF_MLME_QUEUE
    }

    /** MlmeEnqueue: refused while halting, when too long, or when full; otherwise last in line. */
    method Enqueue(halting: bool, e: Elem<T>) returns (done: bool)
      requires Valid()
      modifies entry, this`num, this`tail
      ensures Valid()
      ensures done <==> !halting && e.msgLen <= MAX_LEN_OF_MLME_BUFFER && |old(Contents())| < MAX_LEN_OF_MLME_QUEUE
      ensures Contents() == old(Contents()) + if done then [e] else []
      ensures done ==> entry[..] == old(entry[..])[old(tail) := e]
      ensures !done ==> entry[..] == old(entry[..])
    {
      if halting || e.msgLen > MAX_LEN_OF_MLME_BUFFER || Full() {
        return false;
      }
      ghost var was := Contents();
      var slot := tail;
      tail, num := tail + 1, num + 1;
      if tail == MAX_LEN_OF_MLME_QUEUE {
        tail := 0;
      }
      entry[slot] := e;
      assert Contents() == was + [e];
      return true;
    }

    /** MlmeDequeue: the slot of the first element in line, which now counts as free. */
    method Dequeue() returns (slot: nat)
      requires Valid() && !Empty()
      modifies this`num, this`head
      ensures Valid() && slot == old(head) && slot < entry.Length
      ensures old(Contents())[0] == entry[slot] && Contents() == old(Contents())[1..]
      ensures head == Wrap(slot + 1)
    {
      ghost var was := Contents();
      slot := head;
      head, num := head + 1, num - 1;
      if head == MAX_LEN_OF_MLME_QUEUE {
        head := 0;
      }
      forall k | 0 <= k < num
        ensures Contents()[k] == was[k + 1]
      {
        assert Wrap(head + k) == Wrap(slot + k + 1);
      }
    }

    /**
     While the element in a slot just dequeued is handled, the next message goes into that
     very slot exactly when nine others wait.
     */
    lemma SlotReused(slot: nat)
      requires Valid() && slot < MAX_LEN_OF_MLME_QUEUE && head == Wrap(slot + 1) && !Full()
      ensures tail == slot <==> num == MAX_LEN_OF_MLME_QUEUE - 1
    {
    }
  }
}

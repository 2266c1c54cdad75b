/** The single-producer single-consumer queue as the code is written (include/lockless/spsc_queue.hpp), for
    calls that do not overlap. */
module SpscQueues {
  import opened Arith
  import opened Spsc

  class SpscQueue<T(0)> {
    const buffer: array<T>
    const mask: nat
    ghost const k: nat
    var head: nat
    var tail: nat
    ghost var pushed: nat
    ghost var popped: nat
    ghost var log: seq<T>

    ghost function View(): State<T>
      reads this, buffer
    {
      State(buffer[..], head, tail, pushed, popped, log, PIdle, CIdle)
    }

    ghost predicate Valid()
      reads this, buffer
    {
      Inv(View()) && buffer.Length == mask + 1 == Pow2(k)
    }

    /** The items in the queue, oldest first. */
    ghost function Contents(): (q: seq<T>)
      requires Valid()
      reads this, buffer
    {
      Queue(View())
    }

    constructor (size: nat, ghost k: nat)
      requires size == Pow2(k) && size >= 2
      ensures Valid() && Contents() == [] && buffer.Length == size && fresh(buffer)
    {
      buffer := new T[size];
      mask := size - 1;
      this.k := k;
      head, tail, pushed, popped, log := 0, 0, 0, 0, [];
      new;
      InitInv(View());
    }

    method TryPush(item: T) returns (ok: bool)
      requires Valid()
      modifies this, buffer
      ensures Valid()
      ensures ok <==> old(|Contents()|) < Capacity()
      ensures Contents() == if ok then old(Contents()) + [item] else old(Contents())
    {
      var h := head;
      var next := And(h + 1, mask);
      MaskIsMod(h + 1, k);
      IndexTests(View());
      if next == tail { return false; }
      WindowInjective(popped, buffer.Length);
      SuccSlot(pushed, buffer.Length);
      buffer[h] := item;
      head, pushed, log := next, pushed + 1, log + [item];
      return true;
    }

    method TryPop() returns (ok: bool, item: T)
      requires Valid()
      modifies this
      ensures Valid()
      ensures ok <==> old(Contents()) != []
      ensures ok ==> old(Contents()) == [item] + Contents()
      ensures !ok ==> Contents() == old(Contents())
    {
      var t := tail;
      IndexTests(View());
      if t == head {
        ok, item := false, *;
        return;
      }
      assert buffer[..][Slot(popped, buffer.Length)] == log[popped];
      item := buffer[t];
      MaskIsMod(t + 1, k);
      SuccSlot(popped, buffer.Length);
      tail, popped := And(t + 1, mask), popped + 1;
      ok := true;
    }

    /** One cell always stays empty. */
    function Capacity(): nat
      requires buffer.Length > 0
    {
      buffer.Length - 1
    }

    method Empty() returns (e: bool)
      requires Valid()
      ensures e <==> Contents() == []
    {
      IndexTests(View());
      e := head == tail;
    }
  }
}

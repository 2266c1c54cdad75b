/** The object pool as the code is written (include/lockless/object_pool.hpp), for callers that do
    not overlap. A pointer is its offset from the start of the storage; null is None. `spurious` is how often
    each weak compare-exchange loop fails although it could succeed. */
module ObjectPools {
  import opened Options
  import opened ArrayStacks
  import Stack
  import opened PoolFill

  class ObjectPool {
    const stack: ArrayStack<nat>
    const capacity: nat
    ghost var held: set<nat>

    /** Every object is either on the stack of free indices, once, or held by a client. */
    ghost predicate Valid()
      reads this, stack, stack.links, stack.data
    {
      && stack.Valid() && capacity == stack.links.Length && 1 <= capacity <= Stack.NULL
      && Split(Free(), held, capacity)
    }

    /** The free objects, next to be handed out last. */
    ghost function Free(): seq<nat>
      requires stack.Valid()
      reads this, stack, stack.links, stack.data
    {
      stack.Contents()
    }

    /** One push of the fill loop, which does not fail. */
    static method FillOne(s: ArrayStack<nat>, i: nat, spurious: nat)
      requires s.Valid() && s.Contents() == UpTo(i) && i < s.links.Length
      modifies s, s.links, s.data
      ensures s.Valid() && s.Contents() == UpTo(i + 1)
    {
      var ok := s.TryPush(i, spurious);
      assert ok;
    }

    /** The constructor's fill loop: `try_push` never fails, so its exception is never thrown. */
    static method Fill(s: ArrayStack<nat>, capacity: nat, spurious: nat)
      requires s.Valid() && s.Contents() == [] && s.links.Length == capacity
      modifies s, s.links, s.data
      ensures s.Valid() && s.Contents() == UpTo(capacity)
    {
      for i := 0 to capacity
        invariant s.Valid() && s.Contents() == UpTo(i)
      {
        FillOne(s, i, spurious);
      }
    }

    constructor (capacity: nat, spurious: nat)
      requires 1 <= capacity <= Stack.NULL
      ensures Valid() && held == {} && this.capacity == capacity
      ensures Free() == UpTo(capacity)
      ensures fresh(stack) && fresh(stack.links) && fresh(stack.data)
    {
      var s := new ArrayStack<nat>(capacity);
      Fill(s, capacity, spurious);
      SplitAll(capacity);
      stack := s;
      this.capacity := capacity;
      held := {};
    }

    /** Hands out the object released last, which nobody held. */
    method Acquire(spurious: nat) returns (r: Option<nat>)
      requires Valid()
      modifies this, stack, stack.links
      ensures Valid()
      ensures r.None? <==> old(Free()) == []
      ensures r.None? ==> Free() == old(Free()) && held == old(held)
      ensures r.Some? ==> r.value < capacity && r.value !in old(held) && held == old(held) + {r.value}
      ensures r.Some? ==> old(Free()) == Free() + [r.value]
    {
      var ok, idx := stack.TryPop(spurious);
      if !ok { return None; }
      SplitTake(Free(), held, capacity, idx);
      held := held + {idx};
      r := Some(idx);
    }

    /** Takes an object back; null and pointers outside the storage are ignored. */
    method Release(ptr: Option<int>, spurious: nat)
      requires Valid()
      requires ptr.Some? && 0 <= ptr.value < capacity ==> ptr.value in held
      modifies this, stack, stack.links, stack.data
      ensures Valid()
      ensures if ptr.Some? && 0 <= ptr.value < capacity
              then Free() == old(Free()) + [ptr.value] && held == old(held) - {ptr.value}
              else Free() == old(Free()) && held == old(held)
    {
      if ptr.None? { return; }
      var offset := ptr.value;
      if offset < 0 || offset >= capacity { return; }
      SplitGive(Free(), held, capacity, offset);
      var ok := stack.TryPush(offset, spurious);
      held := held - {offset};
    }
  }
}

/** The arena and the zero-copy queue as the code is written (include/lockless/message_queue.hpp), for calls
    that do not overlap. Addresses are offsets from the start of the arena; None is a thrown exception or
    null. `spurious` is how often the weak compare-exchange fails although it could succeed. */
module ZeroCopyQueues {
  import opened Options
  import opened Arena
  import opened RingBuffers
  import opened Arith

  datatype Handle = Handle(offset: nat, size: nat)

  class SharedMemoryArena {
    const size: nat
    var writeOffset: nat
    ghost var regions: seq<Region>

    ghost predicate Valid()
      reads this
    {
      size < WORD && writeOffset <= size && Packed(regions, writeOffset)
    }

    constructor (size: nat)
      requires size < WORD
      ensures Valid() && regions == [] && this.size == size
    {
      this.size := size;
      writeOffset, regions := 0, [];
    }

    /** The next block, or an exception when it does not seem to fit. The sum wraps like `size_t`: the arena
        stays valid exactly when no block is granted on a sum that wrapped, and then every block granted is
        inside the arena and disjoint from all earlier ones. */
    method Allocate(bytes: nat, spurious: nat) returns (r: Option<nat>)
      requires Valid() && bytes < WORD
      modifies this
      ensures r.None? <==> (old(writeOffset) + bytes) % WORD > size
      ensures r.None? ==> regions == old(regions) && writeOffset == old(writeOffset)
      ensures r.Some? ==> r.value == old(writeOffset) && regions == old(regions) + [Region(r.value, bytes)]
      ensures Valid() <==> r.None? || old(writeOffset) + bytes < WORD
      ensures r.Some? && Valid() ==>
                && r.value + bytes <= size
                && forall i :: 0 <= i < |old(regions)| ==> Disjoint(old(regions)[i], Region(r.value, bytes))
    {
      var current, failures := writeOffset, spurious;
      while true
        invariant Valid() && current == writeOffset == old(writeOffset) && regions == old(regions)
        decreases failures
      {
        if (current + bytes) % WORD > size { return None; }
        if writeOffset == current && failures == 0 {
          forall i | 0 <= i < |regions|
            ensures Disjoint(regions[i], Region(current, bytes))
          {
            PackedOrder(regions, writeOffset, i);
          }
          writeOffset := (current + bytes) % WORD;
          regions := regions + [Region(current, bytes)];
          assert regions[..|regions| - 1] == old(regions);
          return Some(current);
        }
        failures := failures - 1;
        current := writeOffset;
      }
    }
  }

  class ZeroCopyQueue {
    const queue: RingBuffer<Handle>
    const arena: SharedMemoryArena

    ghost predicate Valid()
      reads this, queue, queue.sequences, queue.buffer, arena
    {
      queue.Valid() && arena.Valid()
    }

    constructor (queueSize: nat, ghost k: nat, arenaSize: nat)
      requires queueSize == Pow2(k) && queueSize >= 2 && arenaSize < WORD
      ensures Valid() && queue.contents == [] && arena.regions == [] && arena.size == arenaSize
      ensures fresh(queue) && fresh(queue.sequences) && fresh(queue.buffer) && fresh(arena)
    {
      queue := new RingBuffer<Handle>(queueSize, k);
      arena := new SharedMemoryArena(arenaSize);
    }

    /** Enqueues a handle to `ptr`; refuses pointers outside the arena, and any when the queue is full. */
    method PushMessage(ptr: int, size: nat) returns (ok: bool)
      requires Valid()
      modifies queue, queue.sequences, queue.buffer
      ensures Valid()
      ensures ok <==> 0 <= ptr < arena.size && old(|queue.contents|) < queue.sequences.Length
      ensures queue.contents == if ok then old(queue.contents) + [Handle(ptr, size)] else old(queue.contents)
    {
      if ptr < 0 || ptr >= arena.size { return false; }
      ok := queue.TryPush(Handle(ptr, size), 0);
    }

    method PopMessage() returns (ok: bool, h: Handle)
      requires Valid()
      modifies queue, queue.sequences
      ensures Valid()
      ensures ok <==> old(queue.contents) != []
      ensures if ok then old(queue.contents) == [h] + queue.contents else queue.contents == old(queue.contents)
    {
      ok, h := queue.TryPop(0);
    }

    /** The address a handle designates, None beyond the arena. */
    function GetMessageData(h: Handle): (r: Option<nat>)
      ensures r.Some? <==> h.offset < arena.size
      ensures r.Some? ==> r.value == h.offset
    {
      if h.offset >= arena.size then None else Some(h.offset)
    }
  }
}

/** The ring buffer as the code is written: arrays updated in place inside compare-exchange
    loops (include/lockless/ring_buffer.hpp), for callers that do not overlap. `spurious` is how
    often the weak compare-exchange of a call fails although it could succeed. */
module RingBuffers {
  import opened Arith
  import opened Ring
  import opened RingInv
  import opened RingTheorems

  /** A whole undisturbed push, on values. */
  lemma PushKeeps<T>(s: State<T>, x: T, i: nat)
    requires Inv(s) && s.threads == [] && i == Slot(s.head, s.Size()) && s.seqs[i] == s.head
    ensures Inv(s.(seqs := s.seqs[i := s.head + 1], buf := s.buf[i := x], head := s.head + 1, log := s.log + [x]))
    ensures |Queue(s)| < s.Size()
  {
    var s' := s.(seqs := s.seqs[i := s.head + 1], buf := s.buf[i := x], head := s.head + 1, log := s.log + [x]);
    PushRoom(s);
    WindowInjective(s.tail, s.Size());
    forall p: nat | s'.tail <= p < s'.tail + s.Size()
      ensures SlotOk(s', p)
    {
      assert SlotOk(s, p);
    }
  }

  /** A whole undisturbed pop, on values. */
  lemma PopKeeps<T>(s: State<T>, i: nat)
    requires Inv(s) && s.threads == [] && i == Slot(s.tail, s.Size()) && s.seqs[i] == s.tail + 1
    ensures Inv(s.(seqs := s.seqs[i := s.tail + s.Size()], tail := s.tail + 1))
    ensures s.tail < s.head && s.buf[i] == s.log[s.tail]
  {
    var s' := s.(seqs := s.seqs[i := s.tail + s.Size()], tail := s.tail + 1);
    assert SlotOk(s, s.tail);
    WindowInjective(s.tail, s.Size());
    SlotNextLap(s.tail, s.Size());
    forall p: nat | s'.tail <= p < s'.tail + s.Size()
      ensures SlotOk(s', p)
    {
      if p < s.tail + s.Size() { assert SlotOk(s, p); }
    }
  }

  /** What reading the slot tells an undisturbed caller. */
  lemma Reading<T>(s: State<T>)
    requires Inv(s) && s.threads == []
    ensures s.seqs[Slot(s.head, s.Size())] < s.head <==> |Queue(s)| == s.Size()
    ensures s.seqs[Slot(s.tail, s.Size())] < s.tail + 1 <==> Queue(s) == []
  {
    SlotNextLap(s.tail, s.Size());
    assert SlotOk(s, s.tail);
    if s.head < s.tail + s.Size() { assert SlotOk(s, s.head); }
  }

  lemma {:induction false} PrefixGrows<T>(c: seq<T>, items: seq<T>, i: nat)
    requires i < |items|
    ensures c + items[..i + 1] == c + items[..i] + [items[i]]
  {
  }

  class RingBuffer<T(0)> {
    const sequences: array<nat>
    const buffer: array<T>
    const mask: nat
    ghost const k: nat
    var head: nat
    var tail: nat
    ghost var log: seq<T>
    /** The items in the buffer, oldest first. */
    ghost var contents: seq<T>

    ghost function View(): State<T>
      reads this, sequences, buffer
    {
      State(sequences[..], buffer[..], head, tail, log, seq(sequences.Length, i => 0), [])
    }

    ghost predicate Valid()
      reads this, sequences, buffer
    {
      && sequences as object != buffer && Inv(View()) && contents == Queue(View())
      && sequences.Length == mask + 1 == Pow2(k)
    }

    /** Any power of two; the queue it establishes needs two cells. */
    constructor (size: nat, ghost k: nat)
      requires size == Pow2(k)
      ensures size >= 2 ==> Valid()
      ensures contents == [] && log == [] && head == 0 && tail == 0 && mask == size - 1
      ensures sequences.Length == size && buffer.Length == size && forall i :: 0 <= i < size ==> sequences[i] == i
      ensures fresh(sequences) && fresh(buffer)
    {
      sequences := new nat[size];
      buffer := new T[size];
      mask := size - 1;
      this.k := k;
      head, tail, log, contents := 0, 0, [], [];
      new;
      for i := 0 to size
        invariant forall j :: 0 <= j < i ==> sequences[j] == j
        invariant fresh(sequences) && fresh(buffer) && sequences as object != buffer
        invariant head == tail == 0 && log == contents == []
      {
        sequences[i] := i;
      }
      if size >= 2 { InitInv(View()); }
    }

    /** The claim of position `h`, the copy and the publication. */
    method CommitPush(item: T, h: nat, index: nat)
      requires Valid() && h == head && index == Slot(h, sequences.Length) && sequences[index] == h
      modifies this`head, this`log, this`contents, sequences, buffer
      ensures Valid() && contents == old(contents) + [item] && log == old(log) + [item]
    {
      PushKeeps(View(), item, index);
      ghost var s := View();
      SlicePush(log, tail, item);
      head := h + 1;
      log, contents := log + [item], contents + [item];
      buffer[index] := item;
      sequences[index] := h + 1;
      assert View() == s.(seqs := s.seqs[index := h + 1], buf := s.buf[index := item], head := h + 1,
                          log := s.log + [item]);
    }

    /** The claim of position `t`, the copy and the release. */
    method CommitPop(t: nat, index: nat) returns (item: T)
      requires Valid() && t == tail && index == Slot(t, sequences.Length) && sequences[index] == t + 1
      modifies this`tail, this`contents, sequences
      ensures Valid() && old(contents) == [item] + contents
    {
      PopKeeps(View(), index);
      ghost var s := View();
      SlicePop(log, tail);
      tail, contents := t + 1, contents[1..];
      item := buffer[index];
      sequences[index] := t + mask + 1;
      assert View() == s.(seqs := s.seqs[index := t + s.Size()], tail := t + 1);
    }

    method TryPush(item: T, spurious: nat) returns (ok: bool)
      requires Valid()
      modifies this, sequences, buffer
      ensures Valid()
      ensures ok <==> old(|contents|) < sequences.Length
      ensures |contents| <= sequences.Length
      ensures contents == if ok then old(contents) + [item] else old(contents)
      ensures log == if ok then old(log) + [item] else old(log)
    {
      var h, failures := head, spurious;
      while true
        invariant Valid() && View() == old(View()) && contents == old(contents) && h <= head
        decreases head - h, failures
      {
        var index := And(h, mask);
        MaskIsMod(h, k);
        var diff := sequences[index] - h;
        SeqReading(View(), Push(item), h);
        Reading(View());
        if diff == 0 {
          if head == h && failures == 0 {
            CommitPush(item, h, index);
            return true;
          }
          if head == h { failures := failures - 1; }
          h := head;
        } else if diff < 0 {
          return false;
        } else {
          h := head;
        }
      }
    }

    method TryPop(spurious: nat) returns (ok: bool, item: T)
      requires Valid()
      modifies this, sequences
      ensures Valid() && log == old(log)
      ensures ok <==> old(contents) != []
      ensures ok ==> old(contents) == [item] + contents
      ensures !ok ==> contents == old(contents)
    {
      var t, failures := tail, spurious;
      while true
        invariant Valid() && View() == old(View()) && contents == old(contents) && t <= tail
        decreases tail - t, failures
      {
        var index := And(t, mask);
        MaskIsMod(t, k);
        var diff := sequences[index] - (t + 1);
        SeqReading(View(), Pop, t);
        Reading(View());
        if diff == 0 {
          if tail == t && failures == 0 {
            item := CommitPop(t, index);
            return true, item;
          }
          if tail == t { failures := failures - 1; }
          t := tail;
        } else if diff < 0 {
          ok, item := false, *;
          return;
        } else {
          t := tail;
        }
      }
    }

    /** Pushes items until one is refused. */
    method TryPushBatch(items: seq<T>) returns (pushed: nat)
      requires Valid()
      modifies this, sequences, buffer
      ensures Valid() && pushed <= |items|
      ensures contents == old(contents) + items[..pushed]
      ensures pushed < |items| ==> |contents| == sequences.Length
    {
      pushed := 0;
      for i := 0 to |items|
        invariant Valid() && pushed == i
        invariant contents == old(contents) + items[..i]
      {
        var ok := TryPush(items[i], 0);
        if !ok { break; }
        PrefixGrows(old(contents), items, i);
        pushed := pushed + 1;
      }
    }

    /** Pops up to `max` items into `items`. */
    method TryPopBatch(items: array<T>, max: nat) returns (popped: nat)
      requires Valid() && max <= items.Length && items != buffer && items as object != sequences
      modifies this, sequences, items
      ensures Valid() && log == old(log) && popped <= max
      ensures old(contents) == items[..popped] + contents
      ensures popped < max ==> contents == []
      ensures forall j :: popped <= j < items.Length ==> items[j] == old(items[j])
    {
      popped := 0;
      for i := 0 to max
        invariant Valid() && log == old(log) && popped == i
        invariant old(contents) == items[..i] + contents
        invariant forall j :: i <= j < items.Length ==> items[j] == old(items[j])
      {
        ghost var taken := items[..i];
        var ok, item := TryPop(0);
        if !ok { break; }
        items[i] := item;
        assert items[..i + 1] == taken + [item];
        Assoc(taken, [item], contents);
        popped := popped + 1;
      }
    }
  }
}

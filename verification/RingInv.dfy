/** The invariant of the ring buffer and its preservation by every atomic action. */
module RingInv {
  import opened Options
  import opened Arith
  import opened Ring

  /** Thread `u` has claimed position `p` for the given kind of call and not yet stored the slot's
      sequence number. */
  ghost predicate Holds<T>(s: State<T>, u: nat, push: bool, p: int) {
    && u < |s.threads|
    && s.threads[u].pc in {Data, Store} && s.threads[u].op.Push? == push && s.threads[u].pos == p
  }

  /** What the slot of position `p` shows, for `p` within one lap of `tail`. A claimed position
      is published (`p + 1`, data in place) or has a producer at work; an unclaimed one is free (`p`)
      or still being emptied by the consumer of the previous lap. */
  ghost predicate SlotOk<T>(s: State<T>, p: nat)
    requires WellShaped(s) && |s.log| == s.head
  {
    var i := Slot(p, s.Size());
    if p < s.head then
      || (s.seqs[i] == p + 1 && s.buf[i] == s.log[p])
      || (s.seqs[i] == p && Holds(s, s.holder[i], true, p))
    else
      || s.seqs[i] == p
      || (s.seqs[i] == p - s.Size() + 1 && Holds(s, s.holder[i], false, p - s.Size()))
  }

  ghost predicate Bounds<T>(s: State<T>) {
    WellShaped(s) && s.Size() >= 2 && s.tail <= s.head <= s.tail + s.Size() && |s.log| == s.head
  }

  ghost predicate Window<T>(s: State<T>)
    requires Bounds(s)
  {
    forall p: nat {:trigger Slot(p, s.Size())} :: s.tail <= p < s.tail + s.Size() ==> SlotOk(s, p)
  }

  /** A thread inside its retry loop: its position lags behind the counter, and every retry raised it. */
  ghost predicate Looping<T>(s: State<T>, l: Local<T>)
    requires Bounds(s)
  {
    var c := Counter(s, l.op);
    && l.start + l.retries <= l.pos <= c
    && (l.pc == Reload ==> l.pos < c)
    && (l.pc == Cas && l.pos == c ==> s.seqs[Slot(l.pos, s.Size())] == Expected(l.op, l.pos))
  }

  /** A thread that owns a slot. */
  ghost predicate Owning<T>(s: State<T>, u: nat, l: Local<T>)
    requires Bounds(s)
  {
    var i := Slot(l.pos, s.Size());
    && s.holder[i] == u
    && s.seqs[i] == Expected(l.op, l.pos)
    && match l.op
       case Push(x) =>
         && s.tail <= l.pos < s.head && s.log[l.pos] == x
         && (l.pc == Store ==> s.buf[i] == x)
       case Pop =>
         && l.pos < s.tail && s.head <= l.pos + s.Size()
         && (if l.pc == Store then l.out == Some(s.log[l.pos]) else s.buf[i] == s.log[l.pos])
  }

  ghost predicate Finished<T>(s: State<T>, l: Local<T>)
    requires Bounds(s)
  {
    match l.op
    case Push(x) => l.pos < s.head && s.log[l.pos] == x
    case Pop => l.pos < s.tail && l.out == Some(s.log[l.pos])
  }

  ghost predicate ThreadOk<T>(s: State<T>, u: nat)
    requires Bounds(s) && u < |s.threads|
  {
    var l := s.threads[u];
    && (l.pc in {Seq, Cas, Reload} ==> Looping(s, l))
    && (l.pc in {Data, Store} ==> Owning(s, u, l))
    && (l.pc in {Data, Store, Won, Lost} ==> l.start + l.retries <= l.pos <= Counter(s, l.op))
    && (l.pc == Won ==> Finished(s, l))
  }

  ghost predicate Inv<T>(s: State<T>) {
    && Bounds(s)
    && Window(s)
    && forall u {:trigger s.threads[u]} :: 0 <= u < |s.threads| ==> ThreadOk(s, u)
  }

  lemma InitInv<T>(s: State<T>)
    requires Init(s) && s.Size() >= 2
    ensures Inv(s)
  {
    forall p: nat | s.tail <= p < s.tail + s.Size()
      ensures SlotOk(s, p)
    {
      ModUnique(p, s.Size(), 0, p);
    }
    forall u | 0 <= u < |s.threads|
      ensures ThreadOk(s, u)
    {
      assert s.threads[u].pc == Idle;
    }
  }

  /** A position whose slot shows the push number is inside the window: the queue is not full. */
  lemma PushRoom<T>(s: State<T>)
    requires Inv(s) && s.seqs[Slot(s.head, s.Size())] == s.head
    ensures s.head < s.tail + s.Size()
  {
    SlotNextLap(s.tail, s.Size());
    assert SlotOk(s, s.tail);
  }

  /** The position of the window whose slot an owner holds. */
  function HeldAt<T>(l: Local<T>, n: nat): nat {
    if l.op.Push? then l.pos else l.pos + n
  }

  /** A thread at its claim does not share its slot with any owner. */
  lemma PushClaimThreads<T>(s: State<T>, t: nat, u: nat)
    requires Inv(s) && t < |s.threads| && s.threads[t].pc == Cas && s.threads[t].op.Push?
    requires s.threads[t].pos == s.head && u < |s.threads|
    ensures Bounds(Act(s, t, false)) && ThreadOk(Act(s, t, false), u)
  {
    var n := s.Size();
    assert ThreadOk(s, t) && ThreadOk(s, u);
    PushRoom(s);
    var l := s.threads[u];
    if l.pc in {Data, Store} {
      if l.op.Pop? { SlotNextLap(l.pos, n); }
      WindowInjective(s.tail, n);
      assert Slot(HeldAt(l, n), n) != Slot(s.head, n);
    }
  }

  lemma PushClaim<T>(s: State<T>, t: nat)
    requires Inv(s) && t < |s.threads| && s.threads[t].pc == Cas && s.threads[t].op.Push?
    requires s.threads[t].pos == s.head
    ensures Inv(Act(s, t, false))
  {
    var n := s.Size();
    var s' := Act(s, t, false);
    assert ThreadOk(s, t);
    PushRoom(s);
    forall p: nat | s'.tail <= p < s'.tail + n
      ensures SlotOk(s', p)
    {
      assert SlotOk(s, p);
      if p != s.head { WindowInjective(s.tail, n); }
    }
    forall u | 0 <= u < |s.threads|
      ensures ThreadOk(s', u)
    {
      PushClaimThreads(s, t, u);
    }
  }

  lemma PopClaimThreads<T>(s: State<T>, t: nat, u: nat)
    requires Inv(s) && t < |s.threads| && s.threads[t].pc == Cas && s.threads[t].op.Pop?
    requires s.threads[t].pos == s.tail && u < |s.threads|
    ensures s.tail < s.head && Bounds(Act(s, t, false)) && ThreadOk(Act(s, t, false), u)
  {
    var n := s.Size();
    assert ThreadOk(s, t) && ThreadOk(s, u) && SlotOk(s, s.tail);
    var l := s.threads[u];
    if l.pc in {Data, Store} {
      if l.op.Pop? { SlotNextLap(l.pos, n); }
      WindowInjective(s.tail, n);
      assert Slot(HeldAt(l, n), n) != Slot(s.tail, n);
    }
  }

  /** Claiming a position for a pop moves its slot to the far end of the window. */
  lemma PopClaim<T>(s: State<T>, t: nat)
    requires Inv(s) && t < |s.threads| && s.threads[t].pc == Cas && s.threads[t].op.Pop?
    requires s.threads[t].pos == s.tail
    ensures s.tail < s.head
    ensures Inv(Act(s, t, false))
  {
    var n := s.Size();
    var s' := Act(s, t, false);
    PopClaimThreads(s, t, t);
    SlotNextLap(s.tail, n);
    forall p: nat | s'.tail <= p < s'.tail + n
      ensures SlotOk(s', p)
    {
      assert ThreadOk(s, t);
      if p < s.tail + n {
        assert SlotOk(s, p);
        WindowInjective(s.tail, n);
      }
    }
    forall u | 0 <= u < |s.threads|
      ensures ThreadOk(s', u)
    {
      PopClaimThreads(s, t, u);
    }
  }

  /** Two owners never share a buffer cell, whatever their calls. */
  lemma SlotExclusive<T>(s: State<T>, t: nat, u: nat)
    requires Inv(s) && t < |s.threads| && u < |s.threads|
    requires s.threads[t].pc in {Data, Store} && s.threads[u].pc in {Data, Store}
    requires Slot(s.threads[t].pos, s.Size()) == Slot(s.threads[u].pos, s.Size())
    ensures t == u
  {
    assert ThreadOk(s, t) && ThreadOk(s, u);
  }

  /** Copying the item touches no cell that anyone else may read or write. */
  lemma DataStep<T>(s: State<T>, t: nat)
    requires Inv(s) && t < |s.threads| && s.threads[t].pc == Data
    ensures Inv(Act(s, t, false))
  {
    var n := s.Size();
    var s' := Act(s, t, false);
    assert ThreadOk(s, t);
    WindowInjective(s.tail, n);
    forall p: nat | s'.tail <= p < s'.tail + n
      ensures SlotOk(s', p)
    {
      assert SlotOk(s, p);
    }
    forall u | 0 <= u < |s.threads| && u != t
      ensures ThreadOk(s', u)
    {
      DataThreads(s, t, u);
    }
  }

  lemma DataThreads<T>(s: State<T>, t: nat, u: nat)
    requires Inv(s) && t < |s.threads| && s.threads[t].pc == Data && u < |s.threads| && u != t
    ensures Bounds(Act(s, t, false)) && ThreadOk(Act(s, t, false), u)
  {
    assert ThreadOk(s, t) && ThreadOk(s, u);
  }

  lemma StoreThreads<T>(s: State<T>, t: nat, u: nat)
    requires Inv(s) && t < |s.threads| && s.threads[t].pc == Store && u < |s.threads|
    ensures ThreadOk(Act(s, t, false), u)
  {
    var n := s.Size();
    assert ThreadOk(s, t) && ThreadOk(s, u);
    if s.threads[u].pc == Cas {
      WindowInjective(s.tail, n);
      SlotNextLap(s.threads[t].pos, n);
      SlotNextLap(s.tail, n);
      assert SlotOk(s, s.tail);
    }
  }

  /** The slot that is stored serves the same position or the one a lap later, as the window expects. */
  lemma StoreOwnSlot<T>(s: State<T>, t: nat, p: nat)
    requires Inv(s) && t < |s.threads| && s.threads[t].pc == Store && s.tail <= p < s.tail + s.Size()
    requires Slot(p, s.Size()) == Slot(s.threads[t].pos, s.Size())
    ensures SlotOk(Act(s, t, false), p)
  {
    var n, l := s.Size(), s.threads[t];
    assert ThreadOk(s, t);
    SlotNextLap(l.pos, n);
    WindowInjective(s.tail, n);
    assert p == HeldAt(l, n);
  }

  /** Every other slot, and whoever holds it, stays as it was. */
  lemma StoreOtherSlot<T>(s: State<T>, t: nat, p: nat)
    requires Inv(s) && t < |s.threads| && s.threads[t].pc == Store && s.tail <= p < s.tail + s.Size()
    requires Slot(p, s.Size()) != Slot(s.threads[t].pos, s.Size())
    ensures SlotOk(Act(s, t, false), p)
  {
    assert SlotOk(s, p);
    if p >= s.Size() { SlotNextLap(p - s.Size(), s.Size()); }
  }

  /** Publishing or releasing a slot changes it for no one but its owner. */
  lemma StoreStep<T>(s: State<T>, t: nat)
    requires Inv(s) && t < |s.threads| && s.threads[t].pc == Store
    ensures Inv(Act(s, t, false))
  {
    var n := s.Size();
    var s' := Act(s, t, false);
    forall p: nat | s'.tail <= p < s'.tail + n
      ensures SlotOk(s', p)
    {
      if Slot(p, n) == Slot(s.threads[t].pos, n) { StoreOwnSlot(s, t, p); } else { StoreOtherSlot(s, t, p); }
    }
    forall u | 0 <= u < |s.threads|
      ensures ThreadOk(s', u)
    {
      StoreThreads(s, t, u);
    }
  }

  /** What the owners hold, they hold whatever a thread that owns nothing does to its locals. */
  lemma HoldersKept<T>(s: State<T>, t: nat, l': Local<T>, u: nat)
    requires t < |s.threads| && s.threads[t].pc !in {Data, Store}
    ensures forall push, q :: Holds(s, u, push, q) ==> Holds(SetLocal(s, t, l'), u, push, q)
  {
  }

  /** Every other action changes only the acting thread's locals. */
  lemma LocalStep<T>(s: State<T>, t: nat, l': Local<T>)
    requires Inv(s) && t < |s.threads| && s.threads[t].pc !in {Data, Store}
    requires l'.pc !in {Data, Store}
    requires ThreadOk(SetLocal(s, t, l'), t)
    ensures Inv(SetLocal(s, t, l'))
  {
    var s' := SetLocal(s, t, l');
    forall p: nat | s'.tail <= p < s'.tail + s.Size()
      ensures SlotOk(s', p)
    {
      assert SlotOk(s, p);
      HoldersKept(s, t, l', s.holder[Slot(p, s.Size())]);
    }
    forall u | 0 <= u < |s.threads| && u != t
      ensures ThreadOk(s', u)
    {
      assert ThreadOk(s, u);
    }
  }

  /** A sequence number above the expected one means that the counter has moved on; one below it
      means that the position is the counter itself. */
  lemma SeqReading<T>(s: State<T>, op: Op<T>, pos: nat)
    requires Inv(s) && pos <= Counter(s, op)
    ensures s.seqs[Slot(pos, s.Size())] > Expected(op, pos) ==> pos < Counter(s, op)
    ensures s.seqs[Slot(pos, s.Size())] < Expected(op, pos) ==> pos == Counter(s, op)
  {
    var n := s.Size();
    var q := Lap(pos, s.tail, n);
    assert SlotOk(s, q);
  }

  /** The position that slot `pos` currently serves, for the lap starting at `lo`. */
  function Lap(pos: nat, lo: nat, n: nat): (q: nat)
    requires n > 0 && pos <= lo + n
    ensures Slot(q, n) == Slot(pos, n) && lo <= q < lo + n
    ensures pos >= lo ==> q == pos || q + n == pos
    ensures pos < lo ==> q >= pos + n
    decreases lo - pos
  {
    if pos == lo + n then SlotNextLap(lo, n); lo
    else if pos >= lo then pos
    else SlotNextLap(pos, n); Lap(pos + n, lo, n)
  }

  /** Every atomic action of every thread keeps the invariant. */
  lemma ActInv<T>(s: State<T>, t: nat, spurious: bool)
    requires Inv(s) && t < |s.threads|
    ensures Inv(Act(s, t, spurious))
  {
    var l := s.threads[t];
    assert ThreadOk(s, t);
    match l.pc {
      case Cas =>
        if Counter(s, l.op) == l.pos && !spurious {
          if l.op.Push? { PushClaim(s, t); } else { PopClaim(s, t); }
        } else {
          LocalStep(s, t, Act(s, t, spurious).threads[t]);
        }
      case Data => DataStep(s, t);
      case Store => StoreStep(s, t);
      case Load => LocalStep(s, t, Act(s, t, spurious).threads[t]);
      case Reload => LocalStep(s, t, Act(s, t, spurious).threads[t]);
      case Seq =>
        SeqReading(s, l.op, l.pos);
        LocalStep(s, t, Act(s, t, spurious).threads[t]);
      case _ =>
    }
  }

  lemma NextInv<T>(s: State<T>, a: Label<T>)
    requires Inv(s)
    ensures Inv(Next(s, a))
  {
    match a
    case Call(t, op) =>
      if t < |s.threads| && AtRest(s.threads[t].pc) {
        LocalStep(s, t, Local(op, Load, 0, 0, 0, None));
      }
    case Step(t, spurious) =>
      if t < |s.threads| { ActInv(s, t, spurious); }
  }

  /** Every state of every run satisfies the invariant. */
  lemma {:induction false} ExecInv<T>(s: State<T>, run: seq<Label<T>>)
    requires Inv(s)
    ensures Inv(Exec(s, run))
    decreases |run|
  {
    if run != [] {
      NextInv(s, run[0]);
      ExecInv(Next(s, run[0]), run[1..]);
    }
  }
}

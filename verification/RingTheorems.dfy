/** What the ring buffer promises its callers, over every run. */
module RingTheorems {
  import opened Options
  import opened Arith
  import opened Ring
  import opened RingInv
  import opened Fifo

  // ---------------------------------------------------------------- bounded FIFO

  /** The items claimed by pushes and not yet claimed by pops, oldest first. */
  function Queue<T>(s: State<T>): seq<T>
    requires s.tail <= s.head == |s.log|
  {
    s.log[s.tail..s.head]
  }

  /** The specification event of a scheduler choice: a push takes effect at its successful CAS on
      `head_`, a pop at its successful CAS on `tail_`. */
  ghost function EventOf<T>(s: State<T>, a: Label<T>): Event<T>
    requires Bounds(s)
  {
    if a.Call? || a.t >= |s.threads| then Tau
    else
      var l := s.threads[a.t];
      if l.pc != Cas || l.pos != Counter(s, l.op) || a.spurious then Tau
      else match l.op
        case Push(x) => Enq(x)
        case Pop => if s.tail < s.head then Deq(s.log[s.tail]) else Tau
  }

  lemma {:induction false} SlicePush<T>(log: seq<T>, tail: nat, x: T)
    requires tail <= |log|
    ensures (log + [x])[tail..|log| + 1] == log[tail..|log|] + [x]
  {
  }

  lemma {:induction false} SlicePop<T>(log: seq<T>, tail: nat)
    requires tail < |log|
    ensures log[tail..|log|] == [log[tail]] + log[tail + 1..|log|]
  {
  }

  /** A push that claims its position enqueues its item. */
  lemma PushRefines<T>(s: State<T>, t: nat)
    requires Inv(s) && t < |s.threads| && s.threads[t].pc == Cas && s.threads[t].op.Push? && s.threads[t].pos == s.head
    ensures var s' := Act(s, t, false);
            && s'.log == s.log + [s.threads[t].op.item] && s'.tail == s.tail && s'.head == s.head + 1
            && |Queue(s)| < s.Size() && Queue(s') == Queue(s) + [s.threads[t].op.item]
  {
    assert ThreadOk(s, t);
    PushRoom(s);
    SlicePush(s.log, s.tail, s.threads[t].op.item);
  }

  /** A pop that claims its position dequeues the oldest item. */
  lemma PopRefines<T>(s: State<T>, t: nat)
    requires Inv(s) && t < |s.threads| && s.threads[t].pc == Cas && s.threads[t].op.Pop? && s.threads[t].pos == s.tail
    ensures var s' := Act(s, t, false);
            && s'.log == s.log && s'.tail == s.tail + 1 && s'.head == s.head && s.tail < s.head
            && Queue(s) == [s.log[s.tail]] + Queue(s')
  {
    PopClaim(s, t);
    SlicePop(s.log, s.tail);
  }

  /** Every other action leaves the queue alone. */
  lemma OtherRefines<T>(s: State<T>, a: Label<T>)
    requires Inv(s)
    requires a.Call? || a.t >= |s.threads| || a.spurious || s.threads[a.t].pc != Cas
             || s.threads[a.t].pos != Counter(s, s.threads[a.t].op)
    ensures var s' := Next(s, a); s'.log == s.log && s'.tail == s.tail && s'.head == s.head
  {
  }

  /** Every atomic action is one step of the bounded FIFO or leaves it alone. */
  lemma StepRefines<T>(s: State<T>, a: Label<T>)
    requires Inv(s)
    ensures Inv(Next(s, a))
    ensures FifoStep(Queue(s), EventOf(s, a), Queue(Next(s, a)), s.Size())
    ensures Next(s, a).log == s.log + EnqItem(EventOf(s, a)) && s.tail <= Next(s, a).tail
  {
    NextInv(s, a);
    if a.Step? && Claims(s, a.t) && !a.spurious {
      if s.threads[a.t].op.Push? {
        PushRefines(s, a.t);
      } else {
        PopRefines(s, a.t);
      }
    } else {
      OtherRefines(s, a);
    }
  }

  /** The events of a run, in order. */
  ghost function Events<T>(s: State<T>, run: seq<Label<T>>): (es: seq<Event<T>>)
    requires Inv(s)
    decreases |run|
  {
    if run == [] then [] else NextInv(s, run[0]); [EventOf(s, run[0])] + Events(Next(s, run[0]), run[1..])
  }

  /** Main theorem: any number of threads, any schedule, any spurious failures: the ring buffer
      behaves as an atomic FIFO of capacity `Size`, and never holds more. */
  lemma {:induction false} RefinesFifo<T>(s: State<T>, run: seq<Label<T>>)
    requires Inv(s)
    ensures Inv(Exec(s, run))
    ensures Behaves(Queue(s), Events(s, run), Queue(Exec(s, run)), s.Size())
    ensures |Queue(Exec(s, run))| <= s.Size()
    decreases |run|
  {
    if run != [] {
      var a, s1 := run[0], Next(s, run[0]);
      StepRefines(s, a);
      NextShape(s, a);
      RefinesFifo(s1, run[1..]);
      assert Events(s, run)[1..] == Events(s1, run[1..]);
      if EventOf(s, a).Deq? {
        assert Queue(s)[1..] == Queue(s1);
      }
    }
  }

  /** The history of a run from the constructor: the log is the sequence of enqueued items and the
      pops have taken exactly its first `tail` items, in order. */
  lemma {:induction false} HistoryFromInit<T>(s: State<T>, run: seq<Label<T>>)
    requires Init(s) && s.Size() >= 2
    ensures Inv(s) && Inv(Exec(s, run))
    ensures Enqueued(Events(s, run)) == Exec(s, run).log
    ensures Dequeued(Events(s, run)) == Exec(s, run).log[..Exec(s, run).tail]
  {
    InitInv(s);
    RefinesFifo(s, run);
    LogHistory(s, run);
    var r := Exec(s, run);
    FifoConserves(Queue(s), Events(s, run), Queue(r), s.Size());
    assert Dequeued(Events(s, run)) + Queue(r) == r.log;
    assert |Dequeued(Events(s, run))| == r.tail;
  }

  lemma {:induction false} Assoc<T>(a: seq<T>, b: seq<T>, c: seq<T>)
    ensures a + (b + c) == (a + b) + c
  {
  }

  lemma {:induction false} EventsUnfold<T>(s: State<T>, run: seq<Label<T>>)
    requires Inv(s) && run != []
    ensures Inv(Next(s, run[0]))
    ensures Enqueued(Events(s, run)) == EnqItem(EventOf(s, run[0])) + Enqueued(Events(Next(s, run[0]), run[1..]))
  {
    NextInv(s, run[0]);
    var es := Events(s, run);
    assert es[0] == EventOf(s, run[0]) && es[1..] == Events(Next(s, run[0]), run[1..]);
  }

  lemma {:induction false} LogHistory<T>(s: State<T>, run: seq<Label<T>>)
    requires Inv(s)
    ensures Inv(Exec(s, run))
    ensures Exec(s, run).log == s.log + Enqueued(Events(s, run))
    decreases |run|
  {
    if run != [] {
      StepRefines(s, run[0]);
      EventsUnfold(s, run);
      LogHistory(Next(s, run[0]), run[1..]);
      Assoc(s.log, EnqItem(EventOf(s, run[0])), Enqueued(Events(Next(s, run[0]), run[1..])));
    }
  }

  /** The pop that claimed position `p` returns exactly the item claimed for `p`, whatever happened
      in between; and that item is still what every later state of the run records for `p`. */
  lemma {:induction false} PopDelivers<T>(s: State<T>, run: seq<Label<T>>, t: nat)
    requires Inv(s) && t < |Exec(s, run).threads|
    requires Exec(s, run).threads[t].pc == Won && Exec(s, run).threads[t].op.Pop?
    ensures var r := Exec(s, run); var l := r.threads[t];
            l.pos < r.tail <= |r.log| && l.out == Some(r.log[l.pos])
    ensures var r := Exec(s, run); var l := r.threads[t];
            l.pos < |s.log| ==> l.out == Some(s.log[l.pos])
  {
    ExecInv(s, run);
    LogHistory(s, run);
    assert ThreadOk(Exec(s, run), t);
  }

  /** Thread `t` is between claiming cell `i` and publishing or releasing it. */
  ghost predicate OwnsCell<T>(s: State<T>, t: nat, i: nat)
    requires WellShaped(s)
  {
    t < |s.threads| && s.threads[t].pc in {Data, Store} && Slot(s.threads[t].pos, s.Size()) == i
  }

  /** In every state of every run: a claimed position `p` shows `p` or `p + 1` in its slot, the next free ones show
      `p` or `p - Size + 1`, and no two threads are between claiming and publishing or releasing the same cell. */
  lemma {:induction false} SlotsAlways<T>(s: State<T>, run: seq<Label<T>>, p: nat, t: nat, u: nat)
    requires Inv(s)
    ensures var r := Exec(s, run); var n := s.Size();
            && r.Size() == n && r.tail <= r.head <= r.tail + n
            && (r.tail <= p < r.head ==> r.seqs[Slot(p, n)] in {p, p + 1})
            && (r.head <= p < r.tail + n ==> r.seqs[Slot(p, n)] == p || r.seqs[Slot(p, n)] == p - n + 1)
    ensures var r := Exec(s, run); OwnsCell(r, t, Slot(p, s.Size())) && OwnsCell(r, u, Slot(p, s.Size())) ==> t == u
  {
    ExecInv(s, run);
    SizeKept(s, run);
    var r := Exec(s, run);
    if r.tail <= p < r.tail + r.Size() { assert SlotOk(r, p); }
    if OwnsCell(r, t, Slot(p, s.Size())) && OwnsCell(r, u, Slot(p, s.Size())) { SlotExclusive(r, t, u); }
  }

  lemma {:induction false} SizeKept<T>(s: State<T>, run: seq<Label<T>>)
    requires WellShaped(s)
    ensures Exec(s, run).Size() == s.Size()
    decreases |run|
  {
    if run != [] {
      NextShape(s, run[0]);
      SizeKept(Next(s, run[0]), run[1..]);
    }
  }

  // ---------------------------------------------------------------- claims

  lemma {:induction false} CountersGrow<T>(s: State<T>, run: seq<Label<T>>)
    requires WellShaped(s)
    ensures s.head <= Exec(s, run).head && s.tail <= Exec(s, run).tail
    decreases |run|
  {
    if run != [] {
      NextShape(s, run[0]);
      CountersGrow(Next(s, run[0]), run[1..]);
    }
  }

  /** Thread `t` claims its position by its next action. */
  predicate Claims<T>(s: State<T>, t: nat) {
    t < |s.threads| && s.threads[t].pc == Cas && s.threads[t].pos == Counter(s, s.threads[t].op)
  }

  /** No position is claimed twice: of two claims on one counter, by whatever threads, the later one is at a
      larger position. */
  lemma {:induction false} ClaimsIncrease<T>(s: State<T>, t: nat, run: seq<Label<T>>, u: nat)
    requires WellShaped(s) && Claims(s, t)
    ensures WellShaped(Next(s, Step(t, false)))
    ensures var r := Exec(Next(s, Step(t, false)), run);
            Claims(r, u) && r.threads[u].op.Push? == s.threads[t].op.Push? ==> s.threads[t].pos < r.threads[u].pos
  {
    NextShape(s, Step(t, false));
    CountersGrow(Next(s, Step(t, false)), run);
  }

  /** A pop that takes effect dequeues the oldest item, and returns exactly that item, however long it then takes
      and whatever the other threads do meanwhile. */
  lemma {:induction false} PopReturnsOldest<T>(s: State<T>, run: seq<Label<T>>, t: nat)
    requires Inv(s) && Claims(s, t) && s.threads[t].op.Pop?
    requires |run| > 0 && run[0] == Step(t, false) && SameCall(run, t)
    ensures Queue(s) != [] && EventOf(s, run[0]) == Deq(Queue(s)[0])
    ensures var r := Exec(s, run);
            && t < |r.threads| && r.threads[t].pc in {Data, Store, Won} && r.threads[t].op == s.threads[t].op
            && (r.threads[t].pc == Won ==> r.threads[t].out == Some(Queue(s)[0]))
  {
    PopRefines(s, t);
    NextInv(s, run[0]);
    var s1 := Next(s, run[0]);
    Committed(s1, run[1..], t);
    ExecInv(s1, run[1..]);
    LogHistory(s1, run[1..]);
    assert ThreadOk(Exec(s, run), t);
  }

  /** A call that has claimed its position keeps it until it has returned true. */
  lemma {:induction false} Committed<T>(s: State<T>, run: seq<Label<T>>, t: nat)
    requires WellShaped(s) && t < |s.threads| && s.threads[t].pc in {Data, Store, Won} && SameCall(run, t)
    ensures var r := Exec(s, run);
            && t < |r.threads| && r.threads[t].op == s.threads[t].op && r.threads[t].pos == s.threads[t].pos
            && r.threads[t].pc in {Data, Store, Won}
    decreases |run|
  {
    if run != [] {
      NextShape(s, run[0]);
      Committed(Next(s, run[0]), run[1..], t);
    }
  }

  // ---------------------------------------------------------------- what a failed call saw

  /** Some thread has claimed position `p` and is still copying its item. */
  ghost predicate Worked<T>(s: State<T>, push: bool, p: int) {
    exists u :: Holds(s, u, push, p)
  }

  /** A push that returns false read its slot while its position was the head and that slot was not
      free: either Size items are claimed, or the consumer that took position head - Size is still
      copying it out. */
  lemma PushFailure<T>(s: State<T>, t: nat, spurious: bool)
    requires Inv(s) && t < |s.threads| && s.threads[t].op.Push?
    requires s.threads[t].pc != Lost && Act(s, t, spurious).threads[t].pc == Lost
    ensures s.threads[t].pos == s.head
    ensures |Queue(s)| == s.Size() || Worked(s, false, s.head - s.Size())
  {
    var l := s.threads[t];
    assert ThreadOk(s, t);
    SeqReading(s, l.op, l.pos);
    if s.head < s.tail + s.Size() {
      assert SlotOk(s, s.head);
      assert Holds(s, s.holder[Slot(s.head, s.Size())], false, s.head - s.Size());
    }
  }

  /** A pop that returns false found the queue empty, or the producer of position tail at work. */
  lemma PopFailure<T>(s: State<T>, t: nat, spurious: bool)
    requires Inv(s) && t < |s.threads| && s.threads[t].op.Pop?
    requires s.threads[t].pc != Lost && Act(s, t, spurious).threads[t].pc == Lost
    ensures s.threads[t].pos == s.tail
    ensures Queue(s) == [] || Worked(s, true, s.tail)
  {
    var l := s.threads[t];
    assert ThreadOk(s, t);
    SeqReading(s, l.op, l.pos);
    assert SlotOk(s, s.tail);
    if s.tail < s.head {
      assert Holds(s, s.holder[Slot(s.tail, s.Size())], true, s.tail);
    }
  }

  /** No other thread has claimed a slot. */
  ghost predicate Alone<T>(s: State<T>, t: nat) {
    forall u {:trigger s.threads[u]} :: 0 <= u < |s.threads| && u != t ==> s.threads[u].pc !in {Data, Store}
  }

  /** With no other call between claim and release, reading the slot decides exactly: a push is
      refused iff the queue is full and a pop iff it is empty. */
  lemma FailureExact<T>(s: State<T>, t: nat)
    requires Inv(s) && t < |s.threads| && s.threads[t].pc == Seq && Alone(s, t)
    requires s.threads[t].pos == Counter(s, s.threads[t].op)
    ensures Act(s, t, false).threads[t].pc == Lost <==>
              if s.threads[t].op.Push? then |Queue(s)| == s.Size() else Queue(s) == []
  {
    var l := s.threads[t];
    SeqReading(s, l.op, l.pos);
    SlotNextLap(s.tail, s.Size());
    assert SlotOk(s, s.tail);
    if s.head < s.tail + s.Size() {
      assert SlotOk(s, s.head);
    }
  }

  // ---------------------------------------------------------------- progress

  /** Run `k` steps of thread `t` alone, with no spurious failure. */
  function Solo<T>(t: nat, k: nat): seq<Label<T>> {
    if k == 0 then [] else [Step(t, false)] + Solo(t, k - 1)
  }

  /** The first two actions of an undisturbed call decide it: it fails, or is about to claim its counter. */
  lemma SoloDecides<T>(s: State<T>, t: nat)
    requires Inv(s) && t < |s.threads| && s.threads[t].pc == Load
    ensures var r := Next(Next(s, Step(t, false)), Step(t, false));
            && Inv(r) && t < |r.threads| && r.threads[t].retries == 0
            && (r.threads[t].pc == Lost || (r.threads[t].pc == Cas && r.threads[t].pos == Counter(r, r.threads[t].op)))
  {
    var s1 := Next(s, Step(t, false));
    NextInv(s, Step(t, false));
    NextInv(s1, Step(t, false));
    var l := s1.threads[t];
    SeqReading(s1, l.op, l.pos);
  }

  /** Its last three actions carry it out. */
  lemma SoloCarries<T>(s: State<T>, t: nat)
    requires Inv(s) && t < |s.threads| && s.threads[t].retries == 0
    requires s.threads[t].pc == Lost || (s.threads[t].pc == Cas && s.threads[t].pos == Counter(s, s.threads[t].op))
    ensures var r := Next(Next(Next(s, Step(t, false)), Step(t, false)), Step(t, false));
            t < |r.threads| && r.threads[t].pc in {Won, Lost} && r.threads[t].retries == 0
  {
  }

  /** A thread that runs without interference finishes within five actions and never retries,
      whatever the other threads were doing when it started. */
  lemma SoloFinishes<T>(s: State<T>, t: nat)
    requires Inv(s) && t < |s.threads| && s.threads[t].pc == Load
    ensures var r := Exec(s, Solo(t, 5)); t < |r.threads| && r.threads[t].pc in {Won, Lost} && r.threads[t].retries == 0
  {
    SoloDecides(s, t);
    var a := Step(t, false);
    SoloUnfold(s, t, 4);
    var s1 := Next(s, a);
    SoloUnfold(s1, t, 3);
    var s2 := Next(s1, a);
    SoloCarries(s2, t);
    SoloUnfold(s2, t, 2);
    SoloUnfold(Next(s2, a), t, 1);
    SoloUnfold(Next(Next(s2, a), a), t, 0);
  }

  lemma SoloUnfold<T>(s: State<T>, t: nat, k: nat)
    requires WellShaped(s)
    ensures WellShaped(Next(s, Step(t, false)))
    ensures Exec(s, Solo(t, k + 1)) == Exec(Next(s, Step(t, false)), Solo(t, k))
  {
    NextShape(s, Step(t, false));
    assert Solo<T>(t, k + 1)[1..] == Solo(t, k);
  }

  /** Thread `t` makes no new call during the run. */
  ghost predicate SameCall<T>(run: seq<Label<T>>, t: nat) {
    forall i :: 0 <= i < |run| ==> !(run[i].Call? && run[i].t == t)
  }

  /** Lock-free progress: during one call and when it has returned, true or false, its retries that are not
      spurious CAS failures number at most the successful claims made on its counter since it first read it. */
  lemma {:induction false} RetriesBounded<T>(s: State<T>, run: seq<Label<T>>, t: nat)
    requires Inv(s) && t < |s.threads| && s.threads[t].pc == Load && SameCall(run, t)
    requires |run| > 0 && run[0] == Step(t, false)
    ensures var r := Exec(s, run);
            && t < |r.threads| && r.threads[t].op == s.threads[t].op
            && r.threads[t].retries <= Counter(r, s.threads[t].op) - Counter(s, s.threads[t].op)
  {
    var s1 := Next(s, run[0]);
    NextInv(s, run[0]);
    SameStart(s1, run[1..], t);
    ExecInv(s1, run[1..]);
    assert ThreadOk(Exec(s, run), t);
  }

  lemma {:induction false} SameStart<T>(s: State<T>, run: seq<Label<T>>, t: nat)
    requires WellShaped(s) && t < |s.threads| && s.threads[t].pc !in {Idle, Load} && SameCall(run, t)
    ensures var r := Exec(s, run);
            && t < |r.threads| && r.threads[t].op == s.threads[t].op && r.threads[t].start == s.threads[t].start
            && r.threads[t].pc !in {Idle, Load}
    decreases |run|
  {
    if run != [] {
      NextShape(s, run[0]);
      SameStart(Next(s, run[0]), run[1..], t);
    }
  }
}

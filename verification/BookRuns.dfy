/** The order book fed concurrently: submitters push into the ring buffer while one thread pops batches and
    processes them (include/lockless/order_book.hpp). */
module BookRuns {
  import opened Options
  import opened Book
  import R = Ring
  import RI = RingInv

  /** The processing thread: outside `process_orders`, popping a batch of at most `limit`, or processing it. */
  datatype Phase = Rest | Fetch(limit: nat) | Work

  /** Thread 0 of the ring is the processing thread. `done` counts the orders processed so far. The rest is history of
      its latest call: `done` at its start, the batch size asked for, and whether a pop of it was refused. */
  datatype State = State(
    ring: R.State<Order>, book: Book, done: nat, batch: seq<Order>, phase: Phase,
    base: nat, asked: nat, refused: bool)

  /** Submitters start and continue pushes; the processing thread starts a call and continues it. */
  datatype Label = Submit(t: nat, o: Order) | Push(t: nat, spurious: bool) | ProcessOrders(n: nat) | Go(spurious: bool)

  predicate WellShaped(s: State) {
    R.WellShaped(s.ring) && |s.ring.threads| >= 1
  }

  /** Collect what thread 0 has popped, or stop: at the limit of the batch or at a failed pop. */
  function Collect(s: State): State
    requires WellShaped(s) && s.phase.Fetch?
  {
    var l := s.ring.threads[0];
    if l.pc == R.Won && l.out.Some? then
      var batch := s.batch + [l.out.value];
      if |batch| >= s.phase.limit then s.(batch := batch, phase := Work)
      else s.(batch := batch, ring := R.Next(s.ring, R.Call(0, R.Pop)))
    else s.(phase := Work, refused := true)
  }

  function Next(s: State, a: Label): State
    requires WellShaped(s)
  {
    match a
    case Submit(t, o) => if t == 0 then s else s.(ring := R.Next(s.ring, R.Call(t, R.Push(o))))
    case Push(t, spurious) => if t == 0 then s else s.(ring := R.Next(s.ring, R.Step(t, spurious)))
    case ProcessOrders(n) =>
      if !s.phase.Rest? then s
      else
        var s' := s.(base := s.done, asked := n, refused := false);
        if Min(n, 100) == 0 then s'
        else s'.(phase := Fetch(Min(n, 100)), ring := R.Next(s.ring, R.Call(0, R.Pop)))
    case Go(spurious) =>
      match s.phase
      case Rest => s
      case Fetch(_) =>
        if R.AtRest(s.ring.threads[0].pc) then Collect(s) else s.(ring := R.Next(s.ring, R.Step(0, spurious)))
      case Work =>
        if s.batch == [] then s.(phase := Rest)
        else s.(book := Process(s.book, s.batch[0]), batch := s.batch[1..], done := s.done + 1)
  }

  lemma NextShape(s: State, a: Label)
    requires WellShaped(s)
    ensures WellShaped(Next(s, a))
  {
    match a
    case Submit(t, o) => R.NextShape(s.ring, R.Call(t, R.Push(o)));
    case Push(t, spurious) => R.NextShape(s.ring, R.Step(t, spurious));
    case ProcessOrders(_) => R.NextShape(s.ring, R.Call(0, R.Pop));
    case Go(spurious) =>
      R.NextShape(s.ring, R.Step(0, spurious));
      R.NextShape(s.ring, R.Call(0, R.Pop));
  }

  function Exec(s: State, run: seq<Label>): (r: State)
    requires WellShaped(s)
    ensures WellShaped(r)
    decreases |run|
  {
    if run == [] then s else NextShape(s, run[0]); Exec(Next(s, run[0]), run[1..])
  }

  predicate Init(s: State) {
    && R.Init(s.ring) && s.ring.Size() >= 2 && |s.ring.threads| >= 1
    && s.book == EMPTY && s.done == 0 && s.batch == [] && s.phase == Rest && s.base == 0 && s.asked == 0
  }

  // ---------------------------------------------------------------- invariant

  /** Thread 0 has claimed an order that is not yet in the batch. */
  predicate Claimed(s: State)
    requires WellShaped(s)
  {
    s.phase.Fetch? && s.ring.threads[0].pc in {R.Data, R.Store, R.Won}
  }

  /** Only thread 0 pops. */
  ghost predicate Roles(s: State)
    requires WellShaped(s)
  {
    && (forall t {:trigger s.ring.threads[t]} :: 1 <= t < |s.ring.threads| ==>
          s.ring.threads[t].op.Push? || s.ring.threads[t].pc == R.Idle)
    && (s.phase.Fetch? ==> s.ring.threads[0].op.Pop? && s.ring.threads[0].pc != R.Idle)
    && (!s.phase.Fetch? ==> R.AtRest(s.ring.threads[0].pc))
  }

  /** Processed orders, then the batch, then at most one order in flight, make up the drained prefix. */
  ghost predicate Drained(s: State)
    requires WellShaped(s)
  {
    var n := s.done + |s.batch|;
    && s.ring.tail <= |s.ring.log|
    && s.ring.tail == n + (if Claimed(s) then 1 else 0)
    && (Claimed(s) ==> s.ring.threads[0].pos == n)
    && s.batch == s.ring.log[s.done..n]
    && s.book == Fold(EMPTY, s.ring.log[..s.done])
    && (s.phase.Rest? ==> s.batch == [])
  }

  /** What the latest call has taken off the queue: at most what was asked for, and at most 100; and once it has stopped
      popping, exactly one of these unless a pop was refused. */
  ghost predicate CallOk(s: State) {
    var taken := s.done + |s.batch| - s.base;
    && s.base <= s.done && taken <= s.asked && taken <= 100
    && (s.phase.Fetch? ==>
          && s.done == s.base && taken < s.phase.limit && s.phase.limit <= s.asked && s.phase.limit <= 100
          && (s.phase.limit == s.asked || s.phase.limit == 100))
    && (!s.phase.Fetch? ==> taken == s.asked || taken == 100 || s.refused)
  }

  ghost predicate Inv(s: State) {
    WellShaped(s) && RI.Inv(s.ring) && Roles(s) && Drained(s) && CallOk(s)
  }

  lemma InitInv(s: State)
    requires Init(s)
    ensures Inv(s)
  {
    RI.InitInv(s.ring);
  }

  /** The tail moves only when thread 0 claims; the log only grows. */
  lemma OthersKeepTail(s: R.State<Order>, a: R.Label<Order>)
    requires RI.Inv(s) && a.t != 0 && |s.threads| >= 1
    requires a.Step? && a.t < |s.threads| ==> s.threads[a.t].op.Push? || s.threads[a.t].pc == R.Idle
    ensures R.Next(s, a).tail == s.tail && s.log <= R.Next(s, a).log && R.Next(s, a).threads[0] == s.threads[0]
    ensures |R.Next(s, a).threads| == |s.threads|
  {
  }

  lemma {:induction false} PrefixKept(q: seq<Order>, q': seq<Order>, i: nat, j: nat)
    requires q <= q' && i <= j <= |q|
    ensures q'[..i] == q[..i] && q'[i..j] == q[i..j]
  {
  }

  /** What thread 0 does is all that matters for the drained prefix. */
  lemma DrainedKept(s: State, ring: R.State<Order>)
    requires WellShaped(s) && Drained(s) && R.WellShaped(ring) && |ring.threads| >= 1
    requires ring.tail == s.ring.tail && s.ring.log <= ring.log && ring.threads[0] == s.ring.threads[0]
    ensures Drained(s.(ring := ring))
  {
    PrefixKept(s.ring.log, ring.log, s.done, s.done + |s.batch|);
  }

  lemma RolesKept(s: State, a: R.Label<Order>)
    requires WellShaped(s) && Roles(s) && a.t != 0 && (a.Call? ==> a.op.Push?)
    requires R.WellShaped(R.Next(s.ring, a)) && |R.Next(s.ring, a).threads| >= 1
    ensures Roles(s.(ring := R.Next(s.ring, a)))
  {
  }

  lemma SubmitInv(s: State, a: R.Label<Order>)
    requires Inv(s) && a.t != 0 && (a.Call? ==> a.op.Push?)
    ensures Inv(s.(ring := R.Next(s.ring, a)))
  {
    OthersKeepTail(s.ring, a);
    RI.NextInv(s.ring, a);
    RolesKept(s, a);
    DrainedKept(s, R.Next(s.ring, a));
  }

  /** An action of thread 0 inside its pop: the tail advances with its claim, and nothing else matters here. */
  ghost predicate PopMoves(s: R.State<Order>, s': R.State<Order>)
    requires |s.threads| >= 1
  {
    && s'.log == s.log && |s'.threads| == |s.threads| && s'.tail <= |s'.log|
    && (forall t {:trigger s'.threads[t]} :: 1 <= t < |s.threads| ==> s'.threads[t] == s.threads[t])
    && var l, l' := s.threads[0], s'.threads[0];
    && l'.op.Pop? && l'.pc != R.Idle
    && (l.pc in {R.Data, R.Store} ==> s'.tail == s.tail && l'.pos == l.pos && l'.pc in {R.Data, R.Store, R.Won})
    && (l.pc !in {R.Data, R.Store} ==>
        if l'.pc == R.Data then s'.tail == s.tail + 1 && l'.pos == s.tail
        else s'.tail == s.tail && l'.pc !in {R.Store, R.Won})
  }

  lemma PopStep(s: R.State<Order>, spurious: bool)
    requires RI.Inv(s) && |s.threads| >= 1 && !R.AtRest(s.threads[0].pc) && s.threads[0].op.Pop?
    ensures PopMoves(s, R.Next(s, R.Step(0, spurious)))
  {
    RI.NextInv(s, R.Step(0, spurious));
  }

  lemma FetchParts(s: State, ring: R.State<Order>)
    requires WellShaped(s) && Roles(s) && Drained(s) && CallOk(s) && s.phase.Fetch?
    requires !R.AtRest(s.ring.threads[0].pc) && R.WellShaped(ring) && PopMoves(s.ring, ring)
    ensures var s' := s.(ring := ring); Roles(s') && Drained(s') && CallOk(s')
  {
  }

  lemma FetchInv(s: State, spurious: bool)
    requires Inv(s) && s.phase.Fetch? && !R.AtRest(s.ring.threads[0].pc)
    ensures Inv(Next(s, Go(spurious)))
  {
    RI.NextInv(s.ring, R.Step(0, spurious));
    PopStep(s.ring, spurious);
    FetchParts(s, R.Next(s.ring, R.Step(0, spurious)));
  }

  /** A refused pop ends the batch. */
  lemma StopInv(s: State)
    requires Inv(s) && s.phase.Fetch? && R.AtRest(s.ring.threads[0].pc) && s.ring.threads[0].pc != R.Won
    ensures Inv(Collect(s))
  {
  }

  /** The order that a pop returned is the next one of the log. */
  lemma PoppedNext(s: State)
    requires Inv(s) && s.phase.Fetch? && s.ring.threads[0].pc == R.Won
    ensures var n := s.done + |s.batch|;
            && n < s.ring.tail <= |s.ring.log| && s.ring.threads[0].out == Some(s.ring.log[n])
            && s.batch + [s.ring.log[n]] == s.ring.log[s.done..n + 1]
  {
    assert RI.ThreadOk(s.ring, 0);
  }

  /** A popped order that fills the batch. */
  lemma FillInv(s: State)
    requires Inv(s) && s.phase.Fetch? && s.ring.threads[0].pc == R.Won && |s.batch| + 1 >= s.phase.limit
    ensures Inv(Collect(s))
  {
    PoppedNext(s);
  }

  /** A popped order that does not: the next pop starts. */
  lemma MoreInv(s: State)
    requires Inv(s) && s.phase.Fetch? && s.ring.threads[0].pc == R.Won && |s.batch| + 1 < s.phase.limit
    ensures Inv(Collect(s))
  {
    PoppedNext(s);
    RI.NextInv(s.ring, R.Call(0, R.Pop));
  }

  lemma CollectInv(s: State)
    requires Inv(s) && s.phase.Fetch? && R.AtRest(s.ring.threads[0].pc)
    ensures Inv(Collect(s))
  {
    if s.ring.threads[0].pc != R.Won {
      StopInv(s);
    } else if |s.batch| + 1 >= s.phase.limit {
      FillInv(s);
    } else {
      MoreInv(s);
    }
  }

  /** The start of a call. */
  lemma CallInv(s: State, n: nat)
    requires Inv(s)
    ensures Inv(Next(s, ProcessOrders(n)))
  {
    if s.phase.Rest? { RI.NextInv(s.ring, R.Call(0, R.Pop)); }
  }

  lemma WorkInv(s: State)
    requires Inv(s) && s.phase.Work? && s.batch != []
    ensures Inv(Next(s, Go(false)))
  {
    var log, d := s.ring.log, s.done;
    assert log[..d + 1] == log[..d] + [log[d]];
    FoldSnoc(EMPTY, log[..d], log[d]);
    assert s.batch[1..] == log[d + 1..d + |s.batch|];
  }

  lemma NextInv(s: State, a: Label)
    requires Inv(s)
    ensures Inv(Next(s, a))
  {
    match a
    case Submit(t, o) => if t != 0 { SubmitInv(s, R.Call(t, R.Push(o))); }
    case Push(t, spurious) => if t != 0 { SubmitInv(s, R.Step(t, spurious)); }
    case ProcessOrders(n) => CallInv(s, n);
    case Go(spurious) =>
      if s.phase.Fetch? {
        if R.AtRest(s.ring.threads[0].pc) { CollectInv(s); } else { FetchInv(s, spurious); }
      } else if s.phase.Work? && s.batch != [] {
        WorkInv(s);
      }
  }

  lemma {:induction false} ExecInv(s: State, run: seq<Label>)
    requires Inv(s)
    ensures Inv(Exec(s, run))
    decreases |run|
  {
    if run != [] {
      NextInv(s, run[0]);
      ExecInv(Next(s, run[0]), run[1..]);
    }
  }

  /** Main theorem: whatever is submitted concurrently and however the draining is cut into batches, between
      calls the book is the fold of exactly the drained orders in submission order; and if those were properly
      priced it shows the best resting prices and is not crossed. */
  lemma {:induction false} BookFollowsQueue(s: State, run: seq<Label>)
    requires Init(s) && Exec(s, run).phase.Rest?
    ensures Exec(s, run).ring.tail <= |Exec(s, run).ring.log|
    ensures var r := Exec(s, run); var drained := r.ring.log[..r.ring.tail];
            && r.book == Fold(EMPTY, drained)
            && (Proper(drained) ==> Reflects(r.book, Resting(drained), |drained|))
  {
    InitInv(s);
    ExecInv(s, run);
    var r := Exec(s, run);
    if Proper(r.ring.log[..r.ring.tail]) { BookIsResting(r.ring.log[..r.ring.tail]); }
  }

  /** A call of `process_orders` counts from its start: other choices leave its record alone, but for a refused pop,
      which is a pop that has returned false. */
  lemma CallRecord(s: State, a: Label)
    requires Inv(s)
    ensures var r := Next(s, a);
            && (a.ProcessOrders? && s.phase.Rest? ==> r.base == s.done && r.asked == a.n && !r.refused)
            && (!(a.ProcessOrders? && s.phase.Rest?) ==> r.base == s.base && r.asked == s.asked)
            && (r.refused && !s.refused ==> s.phase.Fetch? && s.ring.threads[0].pc == R.Lost)
  {
    if s.phase.Fetch? { assert RI.ThreadOk(s.ring, 0); }
  }

  /** Main theorem on batches: in every run, whenever the processing thread is outside `process_orders`, its latest call
      has drained at most the batch size and at most 100 orders, and fewer only because a pop was refused. */
  lemma {:induction false} CallDrains(s: State, run: seq<Label>)
    requires Init(s) && Exec(s, run).phase.Rest?
    ensures var r := Exec(s, run); var drained := r.ring.tail - r.base;
            && drained <= r.asked && drained <= 100 && (drained == r.asked || drained == 100 || r.refused)
  {
    InitInv(s);
    ExecInv(s, run);
  }
}

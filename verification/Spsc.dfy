/** The single-producer single-consumer queue (include/lockless/spsc_queue.hpp) as a state machine:
    one producer and one consumer, one shared access per action. */
module Spsc {
  import opened Arith
  import opened Fifo

  /** The producer: about to load its own index, the consumer's index, to write the cell, to store its
      index; or returned. `h` is the index it loaded. */
  datatype Producer<T> =
    | PIdle | PHead(item: T) | PTail(item: T, h: nat) | PWrite(item: T, h: nat) | PStore(item: T, h: nat)
    | PDone(ok: bool)

  datatype Consumer<T> =
    | CIdle | CTail | CHead(t: nat) | CRead(t: nat) | CStore(t: nat, item: T) | CDone(got: seq<T>)

  /** `pushed` and `popped` count without wrapping and `log` is every item ever pushed; all three are
      history that no action tests. */
  datatype State<T> = State(
    buf: seq<T>, head: nat, tail: nat, pushed: nat, popped: nat, log: seq<T>, p: Producer<T>, c: Consumer<T>)

  datatype Label<T> = Push(item: T) | Pop | P | C

  /** Next index; the mask of a power of two is the remainder. */
  function Succ(i: nat, n: nat): nat
    requires n > 0
  {
    (i + 1) % n
  }

  function Next<T>(s: State<T>, a: Label<T>): State<T>
    requires |s.buf| >= 2
  {
    var n := |s.buf|;
    match a
    case Push(x) => if s.p.PIdle? || s.p.PDone? then s.(p := PHead(x)) else s
    case Pop => if s.c.CIdle? || s.c.CDone? then s.(c := CTail) else s
    case P =>
      (match s.p
       case PHead(x) => s.(p := PTail(x, s.head))
       case PTail(x, h) => s.(p := if Succ(h, n) == s.tail then PDone(false) else PWrite(x, h))
       case PWrite(x, h) => if h < n then s.(p := PStore(x, h), buf := s.buf[h := x]) else s
       case PStore(x, h) =>
         s.(p := PDone(true), head := Succ(h, n), pushed := s.pushed + 1, log := s.log + [x])
       case _ => s)
    case C =>
      (match s.c
       case CTail => s.(c := CHead(s.tail))
       case CHead(t) => s.(c := if t == s.head then CDone([]) else CRead(t))
       case CRead(t) => if t < n then s.(c := CStore(t, s.buf[t])) else s
       case CStore(t, x) => s.(c := CDone([x]), tail := Succ(t, n), popped := s.popped + 1)
       case _ => s)
  }

  function Exec<T>(s: State<T>, run: seq<Label<T>>): (r: State<T>)
    requires |s.buf| >= 2
    ensures |r.buf| == |s.buf|
    decreases |run|
  {
    if run == [] then s else Exec(Next(s, run[0]), run[1..])
  }

  predicate Init<T>(s: State<T>) {
    && |s.buf| >= 2 && s.head == 0 && s.tail == 0 && s.pushed == 0 && s.popped == 0 && s.log == []
    && s.p.PIdle? && s.c.CIdle?
  }

  // ---------------------------------------------------------------- invariant

  ghost predicate Counters<T>(s: State<T>) {
    var n := |s.buf|;
    && n >= 2 && s.popped <= s.pushed <= s.popped + n - 1 && |s.log| == s.pushed
    && s.head == Slot(s.pushed, n) && s.tail == Slot(s.popped, n)
  }

  /** Cells between the counters hold what was pushed. */
  ghost predicate Stored<T>(s: State<T>)
    requires Counters(s)
  {
    forall q: nat {:trigger Slot(q, |s.buf|)} :: s.popped <= q < s.pushed ==> s.buf[Slot(q, |s.buf|)] == s.log[q]
  }

  /** A producer past its check has room, whatever the consumer did since; it works on a free cell. */
  ghost predicate ProducerOk<T>(s: State<T>)
    requires Counters(s)
  {
    match s.p
    case PTail(x, h) => h == s.head
    case PWrite(x, h) => h == s.head && s.pushed < s.popped + |s.buf| - 1
    case PStore(x, h) => h == s.head && s.pushed < s.popped + |s.buf| - 1 && s.buf[h] == x
    case _ => true
  }

  /** A consumer past its check has an item, whatever the producer did since. */
  ghost predicate ConsumerOk<T>(s: State<T>)
    requires Counters(s)
  {
    match s.c
    case CHead(t) => t == s.tail
    case CRead(t) => t == s.tail && s.popped < s.pushed
    case CStore(t, x) => t == s.tail && s.popped < s.pushed && x == s.log[s.popped]
    case CDone(got) => got == [] || (s.popped > 0 && got == [s.log[s.popped - 1]])
    case _ => true
  }

  ghost predicate Inv<T>(s: State<T>) {
    Counters(s) && Stored(s) && ProducerOk(s) && ConsumerOk(s)
  }

  lemma InitInv<T>(s: State<T>)
    requires Init(s)
    ensures Inv(s)
  {
  }

  lemma SuccSlot(q: nat, n: nat)
    requires n >= 2
    ensures Succ(Slot(q, n), n) == Slot(q + 1, n)
  {
    DivMod(q, n);
    var b := q % n;
    if b + 1 < n {
      ModUnique(q + 1, n, q / n, b + 1);
      ModUnique(b + 1, n, 0, b + 1);
    } else {
      assert n * (q / n + 1) == n * (q / n) + n;
      ModUnique(q + 1, n, q / n + 1, 0);
      ModUnique(b + 1, n, 1, 0);
    }
  }

  /** The index test decides exactly: equal indices are equal counters, and a successor that meets the
      tail is a queue with `Size - 1` items. */
  lemma IndexTests<T>(s: State<T>)
    requires Counters(s)
    ensures s.tail == s.head <==> s.popped == s.pushed
    ensures Succ(s.head, |s.buf|) == s.tail <==> s.pushed == s.popped + |s.buf| - 1
  {
    var n := |s.buf|;
    SuccSlot(s.pushed, n);
    WindowInjective(s.popped, n);
    SlotNextLap(s.popped, n);
  }

  lemma ProducerInv<T>(s: State<T>)
    requires Inv(s)
    ensures Inv(Next(s, P))
  {
    var n := |s.buf|;
    IndexTests(s);
    SuccSlot(s.pushed, n);
    WindowInjective(s.popped, n);
    var s' := Next(s, P);
    if s.p.PStore? {
      forall q: nat | s'.popped <= q < s'.pushed
        ensures s'.buf[Slot(q, n)] == s'.log[q]
      {
        assert q < s.pushed ==> s.buf[Slot(q, n)] == s.log[q];
      }
    }
  }

  lemma ConsumerInv<T>(s: State<T>)
    requires Inv(s)
    ensures Inv(Next(s, C))
  {
    IndexTests(s);
    SuccSlot(s.popped, |s.buf|);
    assert s.popped < s.pushed ==> s.buf[Slot(s.popped, |s.buf|)] == s.log[s.popped];
  }

  /** Every action of either side keeps the invariant. */
  lemma NextInv<T>(s: State<T>, a: Label<T>)
    requires Inv(s)
    ensures Inv(Next(s, a))
  {
    match a
    case P => ProducerInv(s);
    case C => ConsumerInv(s);
    case _ =>
  }

  // ---------------------------------------------------------------- bounded FIFO

  function Queue<T>(s: State<T>): seq<T>
    requires s.popped <= s.pushed == |s.log|
  {
    s.log[s.popped..]
  }

  /** A push takes effect at the store of `head_`, a pop at the store of `tail_`. */
  function EventOf<T>(s: State<T>, a: Label<T>): Event<T> {
    if a.P? && s.p.PStore? then Enq(s.p.item) else if a.C? && s.c.CStore? then Deq(s.c.item) else Tau
  }

  lemma StepRefines<T>(s: State<T>, a: Label<T>)
    requires Inv(s)
    ensures Inv(Next(s, a)) && FifoStep(Queue(s), EventOf(s, a), Queue(Next(s, a)), |s.buf| - 1)
  {
    NextInv(s, a);
  }

  ghost function Events<T>(s: State<T>, run: seq<Label<T>>): seq<Event<T>>
    requires |s.buf| >= 2
    decreases |run|
  {
    if run == [] then [] else [EventOf(s, run[0])] + Events(Next(s, run[0]), run[1..])
  }

  /** Main theorem: under every interleaving the queue behaves as an atomic FIFO of capacity `Size - 1`. */
  lemma {:induction false} RefinesFifo<T>(s: State<T>, run: seq<Label<T>>)
    requires Inv(s)
    ensures Inv(Exec(s, run)) && Behaves(Queue(s), Events(s, run), Queue(Exec(s, run)), |s.buf| - 1)
    decreases |run|
  {
    if run != [] {
      var s1 := Next(s, run[0]);
      StepRefines(s, run[0]);
      RefinesFifo(s1, run[1..]);
      assert Events(s, run)[0] == EventOf(s, run[0]) && Events(s, run)[1..] == Events(s1, run[1..]);
      if EventOf(s, run[0]).Deq? { assert Queue(s)[1..] == Queue(s1); }
    }
  }

  /** A refused push read the tail of a queue that was exactly full, a refused pop the head of one that was
      exactly empty, and only those are refused. */
  lemma FailureExact<T>(s: State<T>)
    requires Inv(s)
    ensures s.p.PTail? ==> (Next(s, P).p == PDone(false) <==> |Queue(s)| == |s.buf| - 1)
    ensures s.c.CHead? ==> (Next(s, C).c == CDone([]) <==> Queue(s) == [])
  {
    IndexTests(s);
  }

  /** A stale index never hurts: the producer writes only a cell outside the queue, the consumer reads only
      the oldest item, and they never touch the same cell. */
  lemma NoCollision<T>(s: State<T>)
    requires Inv(s)
    ensures s.p.PWrite? ==> forall q: nat :: s.popped <= q < s.pushed ==> s.p.h != Slot(q, |s.buf|)
    ensures s.c.CRead? ==> s.c.t < |s.buf| && Queue(s) != [] && s.buf[s.c.t] == Queue(s)[0]
    ensures s.p.PWrite? && s.c.CRead? ==> s.p.h != s.c.t
  {
    WindowInjective(s.popped, |s.buf|);
    assert s.popped < s.pushed ==> s.buf[Slot(s.popped, |s.buf|)] == s.log[s.popped];
  }

  // ---------------------------------------------------------------- what a call returns

  /** The run contains no new call of the producer, or of the consumer. */
  ghost predicate SamePush<T>(run: seq<Label<T>>) { forall i :: 0 <= i < |run| ==> !run[i].Push? }

  ghost predicate SamePop<T>(run: seq<Label<T>>) { forall i :: 0 <= i < |run| ==> !run[i].Pop? }

  /** A call that has returned keeps its answer until the next call. */
  lemma {:induction false} AnswerKept<T>(s: State<T>, run: seq<Label<T>>)
    requires |s.buf| >= 2
    ensures s.p.PDone? && SamePush(run) ==> Exec(s, run).p == s.p
    ensures s.c.CDone? && SamePop(run) ==> Exec(s, run).c == s.c
    decreases |run|
  {
    if run != [] {
      assert SamePush(run) ==> !run[0].Push?;
      assert SamePop(run) ==> !run[0].Pop?;
      AnswerKept(Next(s, run[0]), run[1..]);
    }
  }

  /** A push that takes effect returns true, and a pop that takes effect returns exactly the oldest item, whatever the
      other side does meanwhile. */
  lemma {:induction false} TakesEffect<T>(s: State<T>, run: seq<Label<T>>)
    requires Inv(s) && |run| > 0
    ensures EventOf(s, run[0]).Enq? && SamePush(run) ==>
              Queue(Next(s, run[0])) == Queue(s) + [EventOf(s, run[0]).x] && Exec(s, run).p == PDone(true)
    ensures EventOf(s, run[0]).Deq? && SamePop(run) ==>
              Queue(s) == [EventOf(s, run[0]).y] + Queue(Next(s, run[0])) && Exec(s, run).c == CDone([Queue(s)[0]])
  {
    StepRefines(s, run[0]);
    assert SamePush(run) ==> SamePush(run[1..]);
    assert SamePop(run) ==> SamePop(run[1..]);
    AnswerKept(Next(s, run[0]), run[1..]);
  }

  /** A call comes to its answer only by an event or by a refusing load: false and nothing are returned only at the
      load of the other index, by a queue that is full, or empty; and an event is what makes the others. */
  lemma AnswersMean<T>(s: State<T>, a: Label<T>)
    requires Inv(s)
    ensures var r := Next(s, a);
            && (r.p == PDone(false) && s.p != r.p ==> s.p.PTail? && |Queue(s)| == |s.buf| - 1 && Queue(r) == Queue(s))
            && (r.p == PDone(true) && s.p != r.p ==> EventOf(s, a).Enq?)
            && (r.c == CDone([]) && s.c != r.c ==> s.c.CHead? && Queue(s) == [] && Queue(r) == Queue(s))
            && (r.c.CDone? && r.c.got != [] && s.c != r.c ==> EventOf(s, a) == Deq(r.c.got[0]) && |r.c.got| == 1)
  {
    FailureExact(s);
  }

  /** The next `k` actions of the producer, or of the consumer, alone. */
  function Alone<T>(a: Label<T>, k: nat): seq<Label<T>> {
    if k == 0 then [] else [a] + Alone(a, k - 1)
  }

  lemma AloneUnfold<T>(s: State<T>, a: Label<T>, k: nat)
    requires |s.buf| >= 2
    ensures |Next(s, a).buf| == |s.buf| && Exec(s, Alone(a, k + 1)) == Exec(Next(s, a), Alone(a, k))
  {
    assert Alone(a, k + 1)[0] == a && Alone(a, k + 1)[1..] == Alone(a, k);
  }

  /** Two actions of one side, with the invariant. */
  lemma TwoActions<T>(s: State<T>, a: Label<T>)
    requires Inv(s)
    ensures Inv(Next(s, a)) && Inv(Next(Next(s, a), a))
  {
    NextInv(s, a);
    NextInv(Next(s, a), a);
  }

  /** The first two actions of a push decide, and change nothing in the queue. */
  lemma PushDecides<T>(s: State<T>, x: T)
    requires Inv(s) && s.p == PHead(x)
    ensures var r := Next(Next(s, P), P);
            && Inv(r) && |r.buf| == |s.buf| && r.pushed == s.pushed && r.popped == s.popped && r.log == s.log
            && r.p == if |Queue(s)| == |s.buf| - 1 then PDone(false) else PWrite(x, s.head)
  {
    TwoActions(s, P);
    FailureExact(Next(s, P));
  }

  /** The last two carry it out. */
  lemma PushCarries<T>(s: State<T>)
    requires Inv(s) && (s.p == PDone(false) || s.p.PWrite?)
    ensures var r := Next(Next(s, P), P);
            && Inv(r) && r.p == PDone(s.p.PWrite?)
            && Queue(r) == if s.p.PWrite? then Queue(s) + [s.p.item] else Queue(s)
  {
    TwoActions(s, P);
  }

  /** A whole push that runs alone, wherever the consumer stands: four actions after the call it has returned, true
      exactly if the queue was not full, and then the item is the newest. */
  lemma PushAlone<T>(s: State<T>, x: T)
    requires Inv(s) && (s.p.PIdle? || s.p.PDone?)
    ensures var r := Exec(Next(s, Push(x)), Alone(P, 4));
            && Inv(r) && r.p == PDone(|Queue(s)| < |s.buf| - 1)
            && Queue(r) == if |Queue(s)| < |s.buf| - 1 then Queue(s) + [x] else Queue(s)
  {
    var s0 := Next(s, Push(x));
    NextInv(s, Push(x));
    PushDecides(s0, x);
    var s2 := Next(Next(s0, P), P);
    PushCarries(s2);
    AloneUnfold(s0, P, 3);
    AloneUnfold(Next(s0, P), P, 2);
    AloneUnfold(s2, P, 1);
    AloneUnfold(Next(s2, P), P, 0);
  }

  lemma PopDecides<T>(s: State<T>)
    requires Inv(s) && s.c == CTail
    ensures var r := Next(Next(s, C), C);
            && Inv(r) && |r.buf| == |s.buf| && r.pushed == s.pushed && r.popped == s.popped && r.log == s.log
            && r.c == if Queue(s) == [] then CDone([]) else CRead(s.tail)
  {
    TwoActions(s, C);
    FailureExact(Next(s, C));
  }

  lemma PopCarries<T>(s: State<T>)
    requires Inv(s) && (s.c == CDone([]) || s.c.CRead?)
    ensures var r := Next(Next(s, C), C);
            && Inv(r) && (s.c.CRead? ==> Queue(s) != [])
            && r.c == CDone(if s.c.CRead? then [Queue(s)[0]] else [])
            && Queue(r) == if s.c.CRead? then Queue(s)[1..] else Queue(s)
  {
    TwoActions(s, C);
  }

  /** A whole pop that runs alone, wherever the producer stands: it returns the oldest item and removes it, or nothing
      exactly if there is none. */
  lemma PopAlone<T>(s: State<T>)
    requires Inv(s) && (s.c.CIdle? || s.c.CDone?)
    ensures var r := Exec(Next(s, Pop), Alone(C, 4));
            && Inv(r)
            && r.c == CDone(if Queue(s) == [] then [] else [Queue(s)[0]])
            && Queue(r) == if Queue(s) == [] then [] else Queue(s)[1..]
  {
    var s0 := Next(s, Pop);
    NextInv(s, Pop);
    PopDecides(s0);
    var s2 := Next(Next(s0, C), C);
    PopCarries(s2);
    AloneUnfold(s0, C, 3);
    AloneUnfold(Next(s0, C), C, 2);
    AloneUnfold(s2, C, 1);
    AloneUnfold(Next(s2, C), C, 0);
  }

  // ---------------------------------------------------------------- wait-freedom

  /** Own actions left in a call. */
  function Left<T>(p: Producer<T>): nat {
    match p
    case PHead(_) => 4
    case PTail(_, _) => 3
    case PWrite(_, _) => 2
    case PStore(_, _) => 1
    case _ => 0
  }

  function LeftC<T>(c: Consumer<T>): nat {
    match c
    case CTail => 4
    case CHead(_) => 3
    case CRead(_) => 2
    case CStore(_, _) => 1
    case _ => 0
  }

  ghost function Count<T>(run: seq<Label<T>>, a: Label<T>): nat {
    if run == [] then 0 else (if run[0] == a then 1 else 0) + Count(run[1..], a)
  }

  /** Each own action brings a call one step closer to its return, and no action of the other side sets it back. */
  lemma StepsLeft<T>(s: State<T>, a: Label<T>)
    requires Inv(s)
    ensures !a.Push? ==> Left(Next(s, a).p) <= Left(s.p)
    ensures !a.Pop? ==> LeftC(Next(s, a).c) <= LeftC(s.c)
    ensures a.P? && Left(s.p) > 0 ==> Left(Next(s, a).p) < Left(s.p)
    ensures a.C? && LeftC(s.c) > 0 ==> LeftC(Next(s, a).c) < LeftC(s.c)
  {
  }

  lemma {:induction false} ProducerWaitFree<T>(s: State<T>, run: seq<Label<T>>)
    requires Inv(s) && (forall i :: 0 <= i < |run| ==> !run[i].Push?) && Count(run, P) >= Left(s.p)
    ensures Left(Exec(s, run).p) == 0
    decreases |run|
  {
    if run != [] {
      NextInv(s, run[0]);
      StepsLeft(s, run[0]);
      ProducerWaitFree(Next(s, run[0]), run[1..]);
    }
  }

  lemma {:induction false} ConsumerWaitFree<T>(s: State<T>, run: seq<Label<T>>)
    requires Inv(s) && (forall i :: 0 <= i < |run| ==> !run[i].Pop?) && Count(run, C) >= LeftC(s.c)
    ensures LeftC(Exec(s, run).c) == 0
    decreases |run|
  {
    if run != [] {
      NextInv(s, run[0]);
      StepsLeft(s, run[0]);
      ConsumerWaitFree(Next(s, run[0]), run[1..]);
    }
  }

  /** Wait-freedom: a call finishes after four of its own actions, whatever the other side does. */
  lemma {:induction false} WaitFree<T>(s: State<T>, run: seq<Label<T>>)
    requires Inv(s)
    ensures (forall i :: 0 <= i < |run| ==> !run[i].Push?) && Count(run, P) >= Left(s.p) ==> Left(Exec(s, run).p) == 0
    ensures (forall i :: 0 <= i < |run| ==> !run[i].Pop?) && Count(run, C) >= LeftC(s.c) ==> LeftC(Exec(s, run).c) == 0
  {
    if (forall i :: 0 <= i < |run| ==> !run[i].Push?) && Count(run, P) >= Left(s.p) { ProducerWaitFree(s, run); }
    if (forall i :: 0 <= i < |run| ==> !run[i].Pop?) && Count(run, C) >= LeftC(s.c) { ConsumerWaitFree(s, run); }
  }
}

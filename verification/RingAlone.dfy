/** What a call on the ring buffer answers when it runs while no other call is between its claim and its store. */
module RingAlone {
  import opened Options
  import opened Arith
  import opened Ring
  import opened RingInv
  import opened RingTheorems
  import opened Fifo

  /** The answer of a whole call: a push is accepted exactly if there is room and then is the newest item, a pop exactly
      if there is an item and then returns the oldest one. */
  ghost predicate Answered<T>(s: State<T>, op: Op<T>, l: Local<T>, r: State<T>)
    requires Bounds(s) && Bounds(r)
  {
    && l.op == op && l.pc in {Won, Lost}
    && match op
       case Push(x) =>
         && (l.pc == Won <==> |Queue(s)| < s.Size())
         && r.tail == s.tail && r.log == s.log + (if l.pc == Won then [x] else [])
         && Queue(r) == Queue(s) + if l.pc == Won then [x] else []
       case Pop =>
         && (l.pc == Won <==> Queue(s) != [])
         && r.log == s.log && r.tail == s.tail + (if l.pc == Won then 1 else 0)
         && (if l.pc == Won then l.out.Some? && Queue(s) == [l.out.value] + Queue(r) else Queue(r) == Queue(s))
  }

  /** `r` is `s` but for thread `t`, which no one waits for. */
  ghost predicate OnlyThread<T>(s: State<T>, r: State<T>, t: nat) {
    && |r.threads| == |s.threads|
    && forall u {:trigger r.threads[u]} :: 0 <= u < |s.threads| && u != t ==> r.threads[u] == s.threads[u]
  }

  lemma OnlyThreadStep<T>(s: State<T>, t: nat)
    requires WellShaped(s) && t < |s.threads|
    ensures OnlyThread(s, Next(s, Step(t, false)), t) && Next(s, Step(t, false)).Size() == s.Size()
  {
  }

  lemma {:induction false} SoloOthers<T>(s: State<T>, t: nat, k: nat)
    requires WellShaped(s) && t < |s.threads|
    ensures OnlyThread(s, Exec(s, Solo(t, k)), t) && Exec(s, Solo(t, k)).Size() == s.Size()
    decreases k
  {
    if k > 0 {
      SoloUnfold(s, t, k - 1);
      OnlyThreadStep(s, t);
      SoloOthers(Next(s, Step(t, false)), t, k - 1);
    }
  }

  /** The shared history is the same. */
  ghost predicate SameLog<T>(s: State<T>, r: State<T>) { r.log == s.log && r.tail == s.tail && r.head == s.head }

  /** The load of the counter. */
  lemma AloneLoad<T>(s: State<T>, t: nat)
    requires Inv(s) && t < |s.threads| && s.threads[t].pc == Load
    ensures var r := Next(s, Step(t, false)); var l := r.threads[t];
            && Inv(r) && SameLog(s, r) && l.pc == Seq && l.op == s.threads[t].op && l.pos == Counter(r, l.op)
  {
    NextInv(s, Step(t, false));
  }

  /** The load of the sequence number decides. */
  lemma AloneSeq<T>(s: State<T>, t: nat)
    requires Inv(s) && t < |s.threads| && s.threads[t].pc == Seq && Alone(s, t)
    requires s.threads[t].pos == Counter(s, s.threads[t].op)
    ensures var r := Next(s, Step(t, false)); var l := r.threads[t];
            && Inv(r) && SameLog(s, r) && l.op == s.threads[t].op && l.pos == Counter(r, l.op)
            && l.pc == if (if l.op.Push? then |Queue(s)| == s.Size() else Queue(s) == []) then Lost else Cas
  {
    NextInv(s, Step(t, false));
    FailureExact(s, t);
    SeqReading(s, s.threads[t].op, s.threads[t].pos);
  }

  /** The claim takes effect. */
  lemma AloneClaim<T>(s: State<T>, t: nat)
    requires Inv(s) && Claims(s, t)
    ensures var r := Next(s, Step(t, false)); var l := r.threads[t];
            && Inv(r) && l.pc == Data && l.op == s.threads[t].op && l.pos < |r.log|
            && match l.op
               case Push(x) =>
                 |Queue(s)| < s.Size() && r.tail == s.tail && r.log == s.log + [x] && Queue(r) == Queue(s) + [x]
               case Pop => r.log == s.log && r.tail == s.tail + 1 && Queue(s) == [r.log[l.pos]] + Queue(r)
  {
    NextInv(s, Step(t, false));
    if s.threads[t].op.Push? { PushRefines(s, t); } else { PopRefines(s, t); }
  }

  /** The copy and the store finish the call. */
  lemma AloneFinish<T>(s: State<T>, t: nat)
    requires Inv(s) && t < |s.threads| && s.threads[t].pc == Data && s.threads[t].pos < |s.log|
    ensures var r := Next(Next(s, Step(t, false)), Step(t, false)); var l := r.threads[t];
            && Inv(r) && SameLog(s, r) && l.pc == Won && l.op == s.threads[t].op
            && (l.op.Pop? ==> l.out == Some(s.log[s.threads[t].pos]))
  {
    var s1 := Next(s, Step(t, false));
    NextInv(s, Step(t, false));
    NextInv(s1, Step(t, false));
    assert ThreadOk(s1, t);
  }

  /** A call that has returned makes no more moves. */
  lemma {:induction false} RestStays<T>(s: State<T>, t: nat, k: nat)
    requires WellShaped(s) && t < |s.threads| && AtRest(s.threads[t].pc)
    ensures Exec(s, Solo(t, k)) == s
    decreases k
  {
    if k > 0 {
      SoloUnfold(s, t, k - 1);
      assert Next(s, Step(t, false)) == s;
      RestStays(s, t, k - 1);
    }
  }

  /** One action in front of others. */
  lemma Before<T>(s: State<T>, t: nat, s1: State<T>, k: nat, r: State<T>)
    requires WellShaped(s) && s1 == Next(s, Step(t, false)) && WellShaped(s1) && k >= 1 && r == Exec(s1, Solo(t, k - 1))
    ensures r == Exec(s, Solo(t, k))
  {
    SoloUnfold(s, t, k - 1);
  }

  /** The claim, the copy and the store. */
  lemma Carries<T>(s: State<T>, t: nat) returns (s1: State<T>, s2: State<T>, r: State<T>)
    requires Inv(s) && Claims(s, t) && (if s.threads[t].op.Push? then |Queue(s)| < s.Size() else Queue(s) != [])
    ensures s1 == Next(s, Step(t, false)) && WellShaped(s1)
    ensures s2 == Next(s1, Step(t, false)) && WellShaped(s2) && r == Next(s2, Step(t, false))
    ensures Inv(r) && t < |r.threads| && r.threads[t].pc == Won && Answered(s, s.threads[t].op, r.threads[t], r)
  {
    s1 := Next(s, Step(t, false));
    AloneClaim(s, t);
    AloneFinish(s1, t);
    s2 := Next(s1, Step(t, false));
    NextShape(s1, Step(t, false));
    r := Next(s2, Step(t, false));
  }

  /** Three actions that end a call, and any more. */
  lemma ThreeActions<T>(s: State<T>, t: nat, s1: State<T>, s2: State<T>, r: State<T>, k: nat)
    requires WellShaped(s) && s1 == Next(s, Step(t, false)) && WellShaped(s1) && k >= 3
    requires s2 == Next(s1, Step(t, false)) && WellShaped(s2) && r == Next(s2, Step(t, false))
    requires WellShaped(r) && t < |r.threads| && AtRest(r.threads[t].pc)
    ensures r == Exec(s, Solo(t, k))
  {
    RestStays(r, t, k - 3);
    Before(s2, t, r, k - 2, r);
    Before(s1, t, s2, k - 1, r);
    Before(s, t, s1, k, r);
  }

  /** A call that is about to claim its counter, or has been refused, answers accordingly. */
  lemma AloneCarries<T>(s: State<T>, t: nat, k: nat) returns (r: State<T>)
    requires Inv(s) && t < |s.threads| && (s.threads[t].pc == Lost || Claims(s, t)) && k >= 3
    requires s.threads[t].pc == Lost <==> if s.threads[t].op.Push? then |Queue(s)| == s.Size() else Queue(s) == []
    ensures r == Exec(s, Solo(t, k)) && Inv(r) && t < |r.threads| && Answered(s, s.threads[t].op, r.threads[t], r)
  {
    if s.threads[t].pc == Lost {
      RestStays(s, t, k);
      r := s;
    } else {
      var s1, s2;
      s1, s2, r := Carries(s, t);
      ThreeActions(s, t, s1, s2, r, k);
    }
  }

  /** The first two actions, from the start of the call. */
  lemma AloneDecides<T>(s: State<T>, t: nat)
    requires Inv(s) && t < |s.threads| && s.threads[t].pc == Load && Alone(s, t)
    ensures var r := Next(Next(s, Step(t, false)), Step(t, false));
            && Inv(r) && SameLog(s, r) && r.Size() == s.Size() && t < |r.threads| && r.threads[t].op == s.threads[t].op
            && (r.threads[t].pc == Lost || Claims(r, t))
            && (r.threads[t].pc == Lost <==>
                if r.threads[t].op.Push? then |Queue(r)| == r.Size() else Queue(r) == [])
  {
    var s1 := Next(s, Step(t, false));
    AloneLoad(s, t);
    OnlyThreadStep(s, t);
    AloneSeq(s1, t);
    OnlyThreadStep(s1, t);
  }

  /** The start of the call, and its first two actions. */
  lemma AloneStarts<T>(s: State<T>, t: nat, op: Op<T>) returns (s0: State<T>, s1: State<T>, s2: State<T>)
    requires Inv(s) && t < |s.threads| && AtRest(s.threads[t].pc) && Alone(s, t)
    ensures s0 == Next(s, Call(t, op)) && WellShaped(s0) && s1 == Next(s0, Step(t, false)) && WellShaped(s1)
    ensures s2 == Next(s1, Step(t, false)) && Inv(s2) && SameLog(s, s2) && s2.Size() == s.Size() && OnlyThread(s, s0, t)
    ensures t < |s2.threads| && s2.threads[t].op == op && (s2.threads[t].pc == Lost || Claims(s2, t))
    ensures s2.threads[t].pc == Lost <==> if op.Push? then |Queue(s2)| == s2.Size() else Queue(s2) == []
  {
    s0 := Next(s, Call(t, op));
    NextInv(s, Call(t, op));
    NextShape(s, Call(t, op));
    AloneDecides(s0, t);
    s1 := Next(s0, Step(t, false));
    NextShape(s0, Step(t, false));
    s2 := Next(s1, Step(t, false));
  }

  lemma TwoBefore<T>(s: State<T>, t: nat, s1: State<T>, s2: State<T>, r: State<T>, k: nat)
    requires WellShaped(s) && s1 == Next(s, Step(t, false)) && WellShaped(s1) && k >= 2
    requires s2 == Next(s1, Step(t, false)) && WellShaped(s2) && r == Exec(s2, Solo(t, k - 2))
    ensures r == Exec(s, Solo(t, k))
  {
    Before(s1, t, s2, k - 1, r);
    Before(s, t, s1, k, r);
  }

  /** A whole call: five actions after its start it has returned, with exactly the answer of the queue, and no action
      after that changes anything. */
  lemma CallAlone<T>(s: State<T>, t: nat, op: Op<T>, k: nat) returns (r: State<T>)
    requires Inv(s) && t < |s.threads| && AtRest(s.threads[t].pc) && Alone(s, t) && k >= 5
    ensures WellShaped(Next(s, Call(t, op))) && r == Exec(Next(s, Call(t, op)), Solo(t, k))
    ensures Inv(r) && OnlyThread(s, r, t) && r.Size() == s.Size() && Answered(s, op, r.threads[t], r)
  {
    var s0, s1, s2 := AloneStarts(s, t, op);
    r := AloneCarries(s2, t, k - 2);
    TwoBefore(s0, t, s1, s2, r, k);
    SoloOthers(s0, t, k);
    SameAnswer(s, s2, op, r, t);
  }

  /** What was decided on an unchanged queue is an answer of that queue. */
  lemma SameAnswer<T>(s: State<T>, s2: State<T>, op: Op<T>, r: State<T>, t: nat)
    requires Bounds(s) && Bounds(s2) && Bounds(r) && t < |r.threads| && s2.Size() == s.Size()
    requires SameLog(s, s2) && Answered(s2, op, r.threads[t], r)
    ensures Answered(s, op, r.threads[t], r)
  {
  }

  // ---------------------------------------------------------------- from any point of a call

  /** Actions that thread `t` needs at most when it goes on alone. A position that lags behind its counter costs one
      failed attempt. */
  function Remaining<T>(s: State<T>, t: nat): (n: nat)
    requires t < |s.threads|
    ensures n <= 6
  {
    var l := s.threads[t];
    var stale := l.pos != Counter(s, l.op);
    match l.pc
    case Load => 5
    case Reload => 5
    case Seq => if stale then 6 else 4
    case Cas => if stale then 5 else 3
    case Data => 2
    case Store => 1
    case _ => 0
  }

  /** Thread `t` is inside a call, or has returned from it, and needs at most `k` more actions. */
  ghost predicate Needs<T>(s: State<T>, t: nat, k: nat) {
    Inv(s) && t < |s.threads| && s.threads[t].pc != Idle && Remaining(s, t) <= k
  }

  lemma OneLess<T>(s: State<T>, t: nat, k: nat)
    requires Needs(s, t, k) && k > 0
    ensures Needs(Next(s, Step(t, false)), t, k - 1)
  {
    NextInv(s, Step(t, false));
    assert ThreadOk(s, t);
    if s.threads[t].pc == Seq { SeqReading(s, s.threads[t].op, s.threads[t].pos); }
  }

  /** Obstruction freedom: from any point of a call, whatever the other threads have done and hold, six actions of its
      own are enough to return. */
  lemma {:induction false} FinishesAlone<T>(s: State<T>, t: nat, k: nat)
    requires Needs(s, t, k)
    ensures var r := Exec(s, Solo(t, k)); t < |r.threads| && r.threads[t].pc in {Won, Lost}
    decreases k
  {
    if k > 0 {
      SoloUnfold(s, t, k - 1);
      OneLess(s, t, k);
      FinishesAlone(Next(s, Step(t, false)), t, k - 1);
    }
  }
}

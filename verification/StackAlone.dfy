/** The array stack's calls when they run alone: what they answer, and what they do to the lists. */
module StackAlone {
  import opened Options
  import opened Stack
  import opened StackInv
  import opened StackTheorems

  lemma {:induction false} ExecSplit<T>(s: State<T>, a: seq<Label<T>>, b: seq<Label<T>>)
    requires WellShaped(s)
    ensures Exec(s, a + b) == Exec(Exec(s, a), b)
    decreases |a|
  {
    if a == [] {
      assert a + b == b;
    } else {
      NextShape(s, a[0]);
      ExecSplit(Next(s, a[0]), a[1..], b);
      assert (a + b)[1..] == a[1..] + b;
    }
  }

  /** At most `b - 1` exchanges hit a head between a thread's read of it and its `pop_index` CAS. */
  predicate Within<T>(s: State<T>, t: nat, b: nat)
    requires t < |s.threads|
  {
    var l := s.threads[t];
    l.pc == PopCas ==> Get(s, From(l.op)).ver < l.ver + b
  }

  predicate WithinRun<T>(s: State<T>, run: seq<Label<T>>, b: nat)
    requires WellShaped(s)
    decreases |run|
  {
    run != [] ==>
      && (run[0].Step? && run[0].t < |s.threads| ==> Within(s, run[0].t, b))
      && (NextShape(s, run[0]); WithinRun(Next(s, run[0]), run[1..], b))
  }

  lemma {:induction false} WithinSplit<T>(s: State<T>, x: seq<Label<T>>, y: seq<Label<T>>, b: nat)
    requires WellShaped(s) && WithinRun(s, x, b) && WithinRun(Exec(s, x), y, b)
    ensures WithinRun(s, x + y, b)
    decreases |x|
  {
    if x == [] {
      assert x + y == y;
    } else {
      NextShape(s, x[0]);
      WithinSplit(Next(s, x[0]), x[1..], y, b);
      assert (x + y)[1..] == x[1..] + y;
    }
  }

  lemma {:induction false} WithinFresh<T>(s: State<T>, run: seq<Label<T>>, b: nat)
    requires WellShaped(s) && WithinRun(s, run, b) && b <= TAGS
    ensures FreshRun(s, run)
    decreases |run|
  {
    if run != [] {
      NextShape(s, run[0]);
      WithinFresh(Next(s, run[0]), run[1..], b);
    }
  }

  /** Everything a call of thread `t` leaves alone. */
  ghost predicate OthersSame<T>(s: State<T>, r: State<T>, t: nat) {
    && |r.threads| == |s.threads| && |r.next| == |s.next|
    && forall u :: 0 <= u < |s.threads| && u != t ==> r.threads[u] == s.threads[u]
  }

  /** One list lost its top node or gained one, by one exchange. */
  ghost predicate Popped(p: Top, q: Top) {
    p.list != [] && q.list == DropTop(p.list) && q.ver == p.ver + 1
  }

  ghost predicate Pushed(p: Top, q: Top, k: nat) {
    q.list == p.list + [k] && q.ver == p.ver + 1
  }

  /** The run from `s` to `r` is thread `t` alone, with no exchange between a read and its own. */
  ghost predicate Alone<T>(s: State<T>, run: seq<Label<T>>, r: State<T>, t: nat)
    requires WellShaped(s)
  {
    WithinRun(s, run, 1) && Exec(s, run) == r && forall i :: 0 <= i < |run| ==> run[i] == Step(t, false)
  }

  /** The run from `s` to `r` is the call `op` of thread `t` and then `t` alone. */
  ghost predicate Called<T>(s: State<T>, run: seq<Label<T>>, r: State<T>, t: nat, op: Op<T>)
    requires WellShaped(s)
  {
    && WithinRun(s, run, 1) && Exec(s, run) == r && |run| > 0 && run[0] == Call(t, op)
    && forall i :: 1 <= i < |run| ==> run[i] == Step(t, false)
  }

  /** Two pieces of a run, one after the other. */
  lemma {:induction false} Then<T>(s: State<T>, x: seq<Label<T>>, r: State<T>, y: seq<Label<T>>, b: nat)
    requires WellShaped(s) && WithinRun(s, x, b) && Exec(s, x) == r && WithinRun(r, y, b)
    ensures Exec(s, x + y) == Exec(r, y) && WithinRun(s, x + y, b)
  {
    ExecSplit(s, x, y);
    WithinSplit(s, x, y, b);
  }

  lemma {:induction false} Joined<T>(s: State<T>, x: seq<Label<T>>, r: State<T>, y: seq<Label<T>>, q: State<T>, t: nat)
    requires WellShaped(s) && Alone(s, x, r, t) && Alone(r, y, q, t)
    ensures Alone(s, x + y, q, t)
  {
    Then(s, x, r, y, 1);
  }

  /** Starting a call. */
  lemma Starts<T>(s: State<T>, t: nat, op: Op<T>) returns (r: State<T>)
    requires Inv(s) && t < |s.threads| && AtRest(s.threads[t].pc)
    ensures r == Next(s, Call(t, op)) && Inv(r) && r == SetLocal(s, t, Fresh(op)) && Values(r) == Values(s)
  {
    r := Next(s, Call(t, op));
    StepRefines(s, Call(t, op));
  }

  /** A call and the actions after it. */
  lemma {:induction false} CallThen<T>(s: State<T>, t: nat, op: Op<T>, s1: State<T>, run: seq<Label<T>>, r: State<T>)
    requires WellShaped(s) && s1 == Next(s, Call(t, op)) && WellShaped(s1) && Alone(s1, run, r, t)
    ensures Called(s, [Call(t, op)] + run, r, t, op)
  {
    var all: seq<Label<T>> := [Call(t, op)] + run;
    assert all[0] == Call(t, op) && all[1..] == run;
  }

  lemma {:induction false} CalledThen<T>(
    s: State<T>, t: nat, op: Op<T>, x: seq<Label<T>>, s1: State<T>, y: seq<Label<T>>, r: State<T>)
    requires WellShaped(s) && Called(s, x, s1, t, op) && Alone(s1, y, r, t)
    ensures Called(s, x + y, r, t, op)
  {
    Then(s, x, s1, y, 1);
  }

  /** One undisturbed action as a run, and what it does to the stack. */
  lemma Does<T>(s: State<T>, t: nat) returns (run: seq<Label<T>>, r: State<T>)
    requires Inv(s) && t < |s.threads| && Within(s, t, 1)
    ensures Alone(s, run, r, t) && r == Next(s, Step(t, false)) && Inv(r) && OthersSame(s, r, t)
    ensures LifoStep(Values(s), EventOf(s, Step(t, false)), Values(r))
  {
    StepRefines(s, Step(t, false));
    OthersStep(s, t);
    run := [Step(t, false)];
    r := Next(s, Step(t, false));
    assert run[1..] == [];
  }

  lemma OthersStep<T>(s: State<T>, t: nat)
    requires WellShaped(s) && t < |s.threads|
    ensures OthersSame(s, Next(s, Step(t, false)), t)
  {
  }

  /** The load of the head, when there is a node. */
  lemma SoloHead<T>(s: State<T>, t: nat) returns (run: seq<Label<T>>, r: State<T>)
    requires Inv(s) && t < |s.threads| && s.threads[t].pc == PopLoad && Get(s, From(s.threads[t].op)).list != []
    ensures Alone(s, run, r, t) && Inv(r) && Values(r) == Values(s)
    ensures var l, from := s.threads[t], Get(s, From(s.threads[t].op));
            && from.head.index == TopIndex(from.list) < |s.next|
            && r == SetLocal(s, t, l.(pc := PopNext, seen := from.head, ver := from.ver))
  {
    NullHead(s, From(s.threads[t].op));
    run, r := Does(s, t);
  }

  /** The load of its successor. */
  lemma SoloNext<T>(s: State<T>, t: nat) returns (run: seq<Label<T>>, r: State<T>)
    requires Inv(s) && t < |s.threads| && s.threads[t].pc == PopNext && s.threads[t].seen.index < |s.next|
    ensures Alone(s, run, r, t) && Inv(r) && Values(r) == Values(s)
    ensures r == SetLocal(s, t, s.threads[t].(pc := PopCas, nxt := s.next[s.threads[t].seen.index]))
  {
    run, r := Does(s, t);
  }

  /** The two reads of an undisturbed `pop_index`. */
  lemma SoloReads<T>(s: State<T>, t: nat) returns (run: seq<Label<T>>, r: State<T>)
    requires Inv(s) && t < |s.threads| && s.threads[t].pc == PopLoad && Get(s, From(s.threads[t].op)).list != []
    ensures Alone(s, run, r, t) && Inv(r) && Values(r) == Values(s)
    ensures var l, from := s.threads[t], Get(s, From(s.threads[t].op));
            && from.head.index == TopIndex(from.list) < |s.next|
            && r == SetLocal(s, t, l.(pc := PopCas, seen := from.head, ver := from.ver, nxt := s.next[from.head.index]))
  {
    var x, s1 := SoloHead(s, t);
    var y, s2 := SoloNext(s1, t);
    Joined(s, x, s1, y, s2, t);
    run, r := x + y, s2;
  }

  /** A pop that has taken its node has the top of the stack to return. */
  ghost predicate Took<T>(s: State<T>, r: State<T>, t: nat)
    requires Inv(s) && Inv(r) && t < |s.threads| && t < |r.threads|
  {
    if s.threads[t].op.TryPush? then Values(r) == Values(s)
    else r.threads[t].lin.Some? && Values(s) == Values(r) + [r.threads[t].lin.value]
  }

  /** Its exchange of the head it has just read. */
  lemma SoloClaim<T>(s: State<T>, t: nat) returns (run: seq<Label<T>>, r: State<T>)
    requires Inv(s) && t < |s.threads| && s.threads[t].pc == PopCas
    requires s.threads[t].seen == Get(s, From(s.threads[t].op)).head && s.threads[t].seen.index < |s.next|
    requires s.threads[t].ver == Get(s, From(s.threads[t].op)).ver && Get(s, From(s.threads[t].op)).list != []
    ensures Alone(s, run, r, t) && Inv(r) && OthersSame(s, r, t) && r.threads[t].pc == Own
    ensures r.threads[t].op == s.threads[t].op && r.threads[t].idx == s.threads[t].seen.index
    ensures Popped(Get(s, From(s.threads[t].op)), Get(r, From(s.threads[t].op)))
    ensures Get(r, To(s.threads[t].op)) == Get(s, To(s.threads[t].op)) && Took(s, r, t)
  {
    run, r := Does(s, t);
    ClaimTook(s, r, t);
  }

  lemma ClaimTook<T>(s: State<T>, r: State<T>, t: nat)
    requires Inv(s) && Inv(r) && t < |s.threads| && s.threads[t].pc == PopCas && r == Next(s, Step(t, false))
    requires s.threads[t].seen == Get(s, From(s.threads[t].op)).head
    requires s.threads[t].ver == Get(s, From(s.threads[t].op)).ver
    requires LifoStep(Values(s), EventOf(s, Step(t, false)), Values(r))
    ensures t < |r.threads| && Took(s, r, t)
  {
    OthersStep(s, t);
    if s.threads[t].op.TryPop? { PopSeesTop(s, t); }
  }

  /** An undisturbed `pop_index` takes the top node. */
  lemma SoloPopIndex<T>(s: State<T>, t: nat) returns (run: seq<Label<T>>, r: State<T>)
    requires Inv(s) && t < |s.threads| && s.threads[t].pc == PopLoad && Get(s, From(s.threads[t].op)).list != []
    ensures Alone(s, run, r, t) && Inv(r) && OthersSame(s, r, t) && Took(s, r, t)
    ensures var op := s.threads[t].op;
            && r.threads[t].pc == Own && r.threads[t].op == op && r.threads[t].idx == TopIndex(Get(s, From(op)).list)
            && Popped(Get(s, From(op)), Get(r, From(op))) && Get(r, To(op)) == Get(s, To(op))
  {
    var x, s1 := SoloReads(s, t);
    var y, s2 := SoloClaim(s1, t);
    Joined(s, x, s1, y, s2, t);
    TookSame(s, s1, s2, t);
    run, r := x + y, s2;
  }

  /** What reads leave alone. */
  lemma TookSame<T>(s: State<T>, s1: State<T>, r: State<T>, t: nat)
    requires Inv(s) && Inv(s1) && Inv(r) && t < |s.threads| && t < |r.threads| && Values(s1) == Values(s)
    requires t < |s1.threads| && s1 == SetLocal(s, t, s1.threads[t]) && s1.threads[t].op == s.threads[t].op
    requires OthersSame(s1, r, t) && Took(s1, r, t)
    ensures OthersSame(s, r, t) && Took(s, r, t)
  {
  }

  /** `r` has the lists and the stack of `s`, and its thread `t` still holds the same node for the same call. */
  ghost predicate Holding<T>(s: State<T>, r: State<T>, t: nat)
    requires Inv(s) && Inv(r) && t < |s.threads| && t < |r.threads|
  {
    && OthersSame(s, r, t) && r.top == s.top && r.free == s.free && Values(r) == Values(s)
    && r.threads[t].op == s.threads[t].op && r.threads[t].idx == s.threads[t].idx
    && r.threads[t].lin == s.threads[t].lin
  }

  /** The data access of an undisturbed call. */
  lemma SoloOwn<T>(s: State<T>, t: nat) returns (run: seq<Label<T>>, r: State<T>)
    requires Inv(s) && t < |s.threads| && s.threads[t].pc == Own
    ensures Alone(s, run, r, t) && Inv(r) && t < |r.threads| && Holding(s, r, t) && r.threads[t].pc == PushLoad
  {
    assert ThreadOk(s, t);
    run, r := Does(s, t);
  }

  /** Its read of the other head. */
  lemma SoloLoad<T>(s: State<T>, t: nat) returns (run: seq<Label<T>>, r: State<T>)
    requires Inv(s) && t < |s.threads| && s.threads[t].pc == PushLoad
    ensures Alone(s, run, r, t) && Inv(r) && t < |r.threads| && Holding(s, r, t) && r.threads[t].pc == PushStore
    ensures r.threads[t].seen == Get(s, To(s.threads[t].op)).head
  {
    run, r := Does(s, t);
  }

  /** Its store of the link. */
  lemma SoloStore<T>(s: State<T>, t: nat) returns (run: seq<Label<T>>, r: State<T>)
    requires Inv(s) && t < |s.threads| && s.threads[t].pc == PushStore
    ensures Alone(s, run, r, t) && Inv(r) && t < |r.threads| && Holding(s, r, t)
    ensures r.threads[t] == s.threads[t].(pc := PushCas)
  {
    assert ThreadOk(s, t);
    run, r := Does(s, t);
  }

  /** A finished call: its node is on top of the other list, a pushed value on top of the stack, a popped one
      returned. */
  ghost predicate Gave<T>(s: State<T>, r: State<T>, t: nat)
    requires Inv(s) && Inv(r) && t < |s.threads| && t < |r.threads|
  {
    var l, op := s.threads[t], s.threads[t].op;
    && OthersSame(s, r, t) && r.threads[t].pc == Won && r.threads[t].op == op
    && Pushed(Get(s, To(op)), Get(r, To(op)), l.idx) && Get(r, From(op)) == Get(s, From(op))
    && Values(r) == Values(s) + (if op.TryPush? then [op.v] else [])
    && (op.TryPop? ==> r.threads[t].out == l.lin)
  }

  /** Its last exchange. */
  lemma SoloExchange<T>(s: State<T>, t: nat) returns (run: seq<Label<T>>, r: State<T>)
    requires Inv(s) && t < |s.threads| && s.threads[t].pc == PushCas
    requires s.threads[t].seen == Get(s, To(s.threads[t].op)).head
    ensures Alone(s, run, r, t) && Inv(r) && t < |r.threads| && Gave(s, r, t)
  {
    assert ThreadOk(s, t);
    run, r := Does(s, t);
  }

  /** The data access and the read of the other head. */
  lemma SoloAccess<T>(s: State<T>, t: nat) returns (run: seq<Label<T>>, r: State<T>)
    requires Inv(s) && t < |s.threads| && s.threads[t].pc == Own
    ensures Alone(s, run, r, t) && Inv(r) && t < |r.threads| && Holding(s, r, t) && r.threads[t].pc == PushStore
    ensures r.threads[t].seen == Get(s, To(s.threads[t].op)).head
  {
    var x, s1 := SoloOwn(s, t);
    var y, s2 := SoloLoad(s1, t);
    Joined(s, x, s1, y, s2, t);
    run, r := x + y, s2;
  }

  /** The rest of an undisturbed `push_index` puts the node on top of the other list. */
  lemma SoloPushIndex<T>(s: State<T>, t: nat) returns (run: seq<Label<T>>, r: State<T>)
    requires Inv(s) && t < |s.threads| && s.threads[t].pc == PushStore
    requires s.threads[t].seen == Get(s, To(s.threads[t].op)).head
    ensures Alone(s, run, r, t) && Inv(r) && t < |r.threads| && Gave(s, r, t)
  {
    var x, s1 := SoloStore(s, t);
    var y, s2 := SoloExchange(s1, t);
    Joined(s, x, s1, y, s2, t);
    run, r := x + y, s2;
  }

  /** An undisturbed call after its `pop_index`. */
  lemma SoloFinish<T>(s: State<T>, t: nat) returns (run: seq<Label<T>>, r: State<T>)
    requires Inv(s) && t < |s.threads| && s.threads[t].pc == Own
    ensures Alone(s, run, r, t) && Inv(r) && t < |r.threads| && Gave(s, r, t)
  {
    var x, s1 := SoloAccess(s, t);
    var y, s2 := SoloPushIndex(s1, t);
    Joined(s, x, s1, y, s2, t);
    run, r := x + y, s2;
  }

  /** The first half of an undisturbed call, from its start. */
  lemma SoloTake<T>(s: State<T>, t: nat, op: Op<T>) returns (run: seq<Label<T>>, r: State<T>)
    requires Inv(s) && t < |s.threads| && AtRest(s.threads[t].pc) && Get(s, From(op)).list != []
    ensures Called(s, run, r, t, op) && Inv(r) && OthersSame(s, r, t)
    ensures r.threads[t].pc == Own && r.threads[t].op == op && r.threads[t].idx == TopIndex(Get(s, From(op)).list)
    ensures Popped(Get(s, From(op)), Get(r, From(op))) && Get(r, To(op)) == Get(s, To(op))
    ensures if op.TryPush? then Values(r) == Values(s)
            else r.threads[t].lin.Some? && Values(s) == Values(r) + [r.threads[t].lin.value]
  {
    var s1 := Starts(s, t, op);
    var x, s2 := SoloPopIndex(s1, t);
    CallThen(s, t, op, s1, x, s2);
    run, r := [Call(t, op)] + x, s2;
  }

  /** A whole undisturbed call that finds a node moves the top node of one list to the other, by one exchange each; and
      it returns true, with its value on top of the stack, or with the value that was on top. */
  lemma SoloOp<T>(s: State<T>, t: nat, op: Op<T>) returns (run: seq<Label<T>>, r: State<T>)
    requires Inv(s) && t < |s.threads| && AtRest(s.threads[t].pc) && Get(s, From(op)).list != []
    ensures Called(s, run, r, t, op) && Inv(r) && OthersSame(s, r, t) && r.threads[t].pc == Won && r.threads[t].op == op
    ensures Popped(Get(s, From(op)), Get(r, From(op)))
    ensures Pushed(Get(s, To(op)), Get(r, To(op)), TopIndex(Get(s, From(op)).list))
    ensures if op.TryPush? then Values(r) == Values(s) + [op.v]
            else r.threads[t].out.Some? && Values(s) == Values(r) + [r.threads[t].out.value]
  {
    var x, s1 := SoloTake(s, t, op);
    var y, s2 := SoloFinish(s1, t);
    CalledThen(s, t, op, x, s1, y, s2);
    OthersTwice(s, s1, s2, t);
    run, r := x + y, s2;
  }

  lemma OthersTwice<T>(s: State<T>, s1: State<T>, r: State<T>, t: nat)
    requires OthersSame(s, s1, t) && OthersSame(s1, r, t)
    ensures OthersSame(s, r, t)
  {
  }

  /** A call that finds no node. */
  lemma SoloRefused<T>(s: State<T>, t: nat, op: Op<T>) returns (run: seq<Label<T>>, r: State<T>)
    requires Inv(s) && t < |s.threads| && AtRest(s.threads[t].pc) && Get(s, From(op)).list == []
    ensures Called(s, run, r, t, op) && Inv(r) && OthersSame(s, r, t)
    ensures r.threads[t].pc == Lost && r.threads[t].op == op
    ensures r.top == s.top && r.free == s.free && Values(r) == Values(s)
  {
    var s1 := Starts(s, t, op);
    NullHead(s1, From(op));
    var x, s2 := Does(s1, t);
    CallThen(s, t, op, s1, x, s2);
    run, r := [Call(t, op)] + x, s2;
  }

  /** Main theorem: a call that runs alone, whatever the other threads hold, answers as the stack does: a push is
      refused exactly if no node is free and else is on top, a pop is refused exactly if the stack is empty and else
      returns and removes the top. */
  lemma CallAlone<T>(s: State<T>, t: nat, op: Op<T>) returns (run: seq<Label<T>>, r: State<T>)
    requires Inv(s) && t < |s.threads| && AtRest(s.threads[t].pc)
    ensures Called(s, run, r, t, op) && Inv(r) && OthersSame(s, r, t) && r.threads[t].op == op
    ensures match op
            case TryPush(v) =>
              && r.threads[t].pc == (if s.free.list == [] then Lost else Won)
              && Values(r) == Values(s) + if s.free.list == [] then [] else [v]
            case TryPop =>
              if Values(s) == [] then r.threads[t].pc == Lost && Values(r) == []
              else && r.threads[t].pc == Won && r.threads[t].out == Some(Values(s)[|Values(s)| - 1])
                   && Values(r) == Values(s)[..|Values(s)| - 1]
  {
    if Get(s, From(op)).list == [] {
      run, r := SoloRefused(s, t, op);
    } else {
      run, r := SoloOp(s, t, op);
    }
  }

  /** Two undisturbed calls in a row. */
  lemma SoloTwo<T>(s: State<T>, t: nat, o: Op<T>, p: Op<T>) returns (run: seq<Label<T>>, s1: State<T>, r: State<T>)
    requires Inv(s) && t < |s.threads| && AtRest(s.threads[t].pc) && Get(s, From(o)).list != []
    requires From(p) == To(o) || |Get(s, From(o)).list| >= 2
    ensures WithinRun(s, run, 1) && Exec(s, run) == r && Inv(r) && OthersSame(s, r, t) && AtRest(r.threads[t].pc)
    ensures Popped(Get(s, From(o)), Get(s1, From(o)))
    ensures Pushed(Get(s, To(o)), Get(s1, To(o)), TopIndex(Get(s, From(o)).list))
    ensures Popped(Get(s1, From(p)), Get(r, From(p)))
    ensures Pushed(Get(s1, To(p)), Get(r, To(p)), TopIndex(Get(s1, From(p)).list))
  {
    var x, y;
    x, s1 := SoloOp(s, t, o);
    y, r := SoloOp(s1, t, p);
    Then(s, x, s1, y, 1);
    run := x + y;
  }

  // ---------------------------------------------------------------- from any point of a call

  /** Actions that thread `t` needs at most when it goes on alone. A head that has changed since it was read costs one
      failed attempt. */
  function Remaining<T>(s: State<T>, t: nat): (n: nat)
    requires t < |s.threads|
    ensures n <= 8
  {
    var l := s.threads[t];
    var late, behind := Get(s, From(l.op)).head != l.seen, Get(s, To(l.op)).head != l.seen;
    match l.pc
    case PopLoad => 7
    case PopNext => if late then 8 else 6
    case PopCas => if late then 7 else 5
    case Own => 4
    case PushLoad => 3
    case PushStore => if behind then 4 else 2
    case PushCas => if behind then 3 else 1
    case _ => 0
  }

  /** The tag that thread `t` has read is not older than the tags can tell. */
  predicate Recent<T>(s: State<T>, t: nat)
    requires t < |s.threads|
  {
    var l := s.threads[t];
    l.pc in {PopNext, PopCas} ==> Get(s, From(l.op)).ver < l.ver + TAGS
  }

  function Solo<T>(t: nat, k: nat): seq<Label<T>> {
    if k == 0 then [] else [Step(t, false)] + Solo(t, k - 1)
  }

  lemma SoloUnfold<T>(s: State<T>, t: nat, k: nat)
    requires WellShaped(s)
    ensures WellShaped(Next(s, Step(t, false)))
    ensures Exec(s, Solo(t, k + 1)) == Exec(Next(s, Step(t, false)), Solo(t, k))
  {
    NextShape(s, Step(t, false));
    assert Solo<T>(t, k + 1)[0] == Step(t, false) && Solo<T>(t, k + 1)[1..] == Solo(t, k);
  }

  /** Thread `t` is inside a call, or has returned from it, and needs at most `k` more actions. */
  ghost predicate Needs<T>(s: State<T>, t: nat, k: nat) {
    Inv(s) && t < |s.threads| && s.threads[t].pc != Idle && Recent(s, t) && Remaining(s, t) <= k
  }

  /** Inside `pop_index`. */
  lemma PopLess<T>(s: State<T>, t: nat)
    requires Inv(s) && t < |s.threads| && s.threads[t].pc in {PopLoad, PopNext, PopCas} && Recent(s, t)
    ensures var r := Next(s, Step(t, false));
            t < |r.threads| && r.threads[t].pc != Idle && Recent(r, t) && Remaining(r, t) < Remaining(s, t)
  {
    assert ThreadOk(s, t);
  }

  /** After it. */
  lemma PushLess<T>(s: State<T>, t: nat)
    requires Inv(s) && t < |s.threads| && s.threads[t].pc in {Own, PushLoad, PushStore, PushCas}
    ensures var r := Next(s, Step(t, false));
            t < |r.threads| && r.threads[t].pc != Idle && Recent(r, t) && Remaining(r, t) < Remaining(s, t)
  {
    assert ThreadOk(s, t);
  }

  lemma OneLess<T>(s: State<T>, t: nat, k: nat)
    requires Inv(s) && t < |s.threads| && s.threads[t].pc != Idle && Recent(s, t) && Remaining(s, t) <= k && k > 0
    ensures var r := Next(s, Step(t, false));
            t < |r.threads| && r.threads[t].pc != Idle && Recent(r, t) && Remaining(r, t) <= k - 1
  {
    if s.threads[t].pc in {PopLoad, PopNext, PopCas} {
      PopLess(s, t);
    } else if s.threads[t].pc in {Own, PushLoad, PushStore, PushCas} {
      PushLess(s, t);
    } else {
      assert Next(s, Step(t, false)) == s;
    }
  }

  lemma NeedsLess<T>(s: State<T>, t: nat, k: nat)
    requires Needs(s, t, k) && k > 0
    ensures Needs(Next(s, Step(t, false)), t, k - 1)
  {
    NextInv(s, Step(t, false));
    OneLess(s, t, k);
  }

  /** Obstruction freedom: from any point of a call, whatever the other threads have done and hold, eight actions of its
      own are enough to return. */
  lemma {:induction false} FinishesAlone<T>(s: State<T>, t: nat, k: nat)
    requires Needs(s, t, k)
    ensures var r := Exec(s, Solo(t, k)); t < |r.threads| && r.threads[t].pc in {Won, Lost}
    decreases k
  {
    if k > 0 {
      SoloUnfold(s, t, k - 1);
      NeedsLess(s, t, k);
      FinishesAlone(Next(s, Step(t, false)), t, k - 1);
    }
  }
}

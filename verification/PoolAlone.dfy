/** What `acquire` and `release` do when they run alone, whatever the other clients hold or have in flight. */
module PoolAlone {
  import opened Options
  import opened Pool
  import S = Stack
  import StackInv
  import StackTheorems
  import A = StackAlone

  /** The free objects, next to be handed out last. */
  ghost function FreeObjects(p: State): seq<nat>
    requires StackInv.Inv(p.st)
  {
    StackTheorems.Values(p.st)
  }

  /** Actions of a thread in the stack, as actions in the pool. */
  function Lifted(t: nat, k: nat): seq<Label> {
    if k == 0 then [] else [Step(t, false)] + Lifted(t, k - 1)
  }

  ghost predicate Steps(run: seq<S.Label<nat>>, t: nat) {
    forall i :: 0 <= i < |run| ==> run[i] == S.Step(t, false)
  }

  lemma {:induction false} LiftUnfold(p: State, t: nat, k: nat)
    requires S.WellShaped(p.st)
    ensures S.WellShaped(Next(p, Step(t, false)).st)
    ensures Exec(p, Lifted(t, k + 1)) == Exec(Next(p, Step(t, false)), Lifted(t, k))
  {
    var run := Lifted(t, k + 1);
    assert run[0] == Step(t, false) && run[1..] == Lifted(t, k);
    NextShape(p, run[0]);
  }

  /** What a returning acquire adds to the objects held. */
  function Gained(l: S.Local<nat>, l': S.Local<nat>): set<nat> {
    if l.op.TryPop? && l.pc != S.Won && l'.pc == S.Won && l'.out.Some? then {l'.out.value} else {}
  }

  /** Thread `t` went on in its call from `p` to `r`: the pool holds more exactly if an acquire returned on the way, and
      a call that has returned makes no more moves. */
  ghost predicate Goes(p: State, r: State, t: nat)
    requires t < |p.st.threads|
  {
    && t < |r.st.threads| && Local(r, t).op == Local(p, t).op && (Local(p, t).pc == S.Won ==> r == p)
    && r.held == p.held + Gained(Local(p, t), Local(r, t))
  }

  lemma StepGoes(p: State, t: nat)
    requires S.WellShaped(p.st) && t < |p.st.threads|
    ensures Goes(p, Next(p, Step(t, false)), t)
    ensures Next(p, Step(t, false)).st == S.Next(p.st, S.Step(t, false))
  {
    ActStack(p, t, false);
    ActShape(p.st, t, false);
  }

  lemma GoesOn(p: State, p1: State, r: State, t: nat)
    requires t < |p.st.threads| && Goes(p, p1, t) && Goes(p1, r, t)
    ensures Goes(p, r, t)
  {
    GainedOnce(p.held, Local(p, t), Local(p1, t), Local(r, t));
  }

  /** A call gains at most once. */
  lemma GainedOnce(held: set<nat>, l: S.Local<nat>, l1: S.Local<nat>, l2: S.Local<nat>)
    requires l1.op == l.op && l2.op == l.op && (l.pc == S.Won ==> l1 == l) && (l1.pc == S.Won ==> l2 == l1)
    ensures held + Gained(l, l1) + Gained(l1, l2) == held + Gained(l, l2)
  {
  }

  /** A whole stretch of actions: the pool goes on, and its stack is the stack. */
  lemma {:induction false} Follows(p: State, t: nat, run: seq<S.Label<nat>>) returns (r: State)
    requires S.WellShaped(p.st) && t < |p.st.threads| && Steps(run, t)
    ensures r == Exec(p, Lifted(t, |run|)) && r.st == S.Exec(p.st, run) && Goes(p, r, t)
    decreases |run|
  {
    if run == [] {
      r := p;
      assert p.held + {} == p.held;
    } else {
      StepGoes(p, t);
      LiftUnfold(p, t, |run| - 1);
      RunUnfold(p.st, run, t);
      r := Follows(Next(p, Step(t, false)), t, run[1..]);
      GoesOn(p, Next(p, Step(t, false)), r, t);
    }
  }

  lemma {:induction false} RunUnfold(st: Word, run: seq<S.Label<nat>>, t: nat)
    requires S.WellShaped(st) && run != [] && Steps(run, t)
    ensures S.WellShaped(S.Next(st, S.Step(t, false))) && Steps(run[1..], t)
    ensures S.Exec(st, run) == S.Exec(S.Next(st, S.Step(t, false)), run[1..])
  {
    assert run[0] == S.Step(t, false);
    S.NextShape(st, run[0]);
  }

  /** A call of the stack without its first label. */
  lemma {:induction false} CallRest(st: Word, run: seq<S.Label<nat>>, r: Word, t: nat, op: S.Op<nat>)
    requires S.WellShaped(st) && A.Called(st, run, r, t, op)
    ensures S.WellShaped(S.Next(st, S.Call(t, op))) && Steps(run[1..], t)
    ensures S.Exec(S.Next(st, S.Call(t, op)), run[1..]) == r
  {
    S.NextShape(st, run[0]);
  }

  /** The pool after a whole call of the stack. */
  lemma {:induction false} LiftCall(p: State, p0: State, run: seq<S.Label<nat>>, st: Word, t: nat, op: S.Op<nat>)
    returns (k: nat, r: State)
    requires S.WellShaped(p.st) && t < |p.st.threads| && S.AtRest(Local(p, t).pc) && A.Called(p.st, run, st, t, op)
    requires p0.st == S.Next(p.st, S.Call(t, op)) && S.WellShaped(p0.st)
    ensures r == Exec(p0, Lifted(t, k)) && r.st == st && t < |st.threads|
    ensures r.held == p0.held + if op.TryPop? && st.threads[t].pc == S.Won && st.threads[t].out.Some?
                                then {st.threads[t].out.value} else {}
  {
    CallRest(p.st, run, st, t, op);
    k := |run| - 1;
    r := Follows(p0, t, run[1..]);
  }

  lemma AcquireStarts(p: State, t: nat)
    requires S.WellShaped(p.st)
    ensures var p0 := Next(p, Acquire(t));
            S.WellShaped(p0.st) && p0.st == S.Next(p.st, S.Call(t, S.TryPop)) && p0.held == p.held
  {
    NextShape(p, Acquire(t));
  }

  lemma ReleaseStarts(p: State, t: nat, o: nat)
    requires S.WellShaped(p.st) && t < |p.st.threads| && S.AtRest(Local(p, t).pc) && o in p.held
    ensures var p0 := Next(p, Release(t, o));
            S.WellShaped(p0.st) && p0.st == S.Next(p.st, S.Call(t, S.TryPush(o))) && p0.held == p.held - {o}
  {
    NextShape(p, Release(t, o));
  }

  /** An `acquire` that runs alone hands out the object released last, and null exactly if none is free. */
  lemma {:induction false} AcquireAlone(p: State, t: nat) returns (k: nat, r: State)
    requires StackInv.Inv(p.st) && t < |p.st.threads| && S.AtRest(Local(p, t).pc)
    ensures S.WellShaped(Next(p, Acquire(t)).st) && r == Exec(Next(p, Acquire(t)), Lifted(t, k))
    ensures StackInv.Inv(r.st) && t < |r.st.threads|
    ensures var q := FreeObjects(p);
            if q == [] then Local(r, t).pc == S.Lost && r.held == p.held && FreeObjects(r) == []
            else
              && Local(r, t).pc == S.Won && Local(r, t).out == Some(q[|q| - 1])
              && r.held == p.held + {q[|q| - 1]} && FreeObjects(r) == q[..|q| - 1]
  {
    AcquireStarts(p, t);
    var run, st := PopOff(p.st, t);
    k, r := LiftCall(p, Next(p, Acquire(t)), run, st, t, S.TryPop);
    Handed(p, r, st, t);
  }

  lemma Handed(p: State, r: State, st: Word, t: nat)
    requires StackInv.Inv(p.st) && StackInv.Inv(st) && r.st == st && t < |st.threads|
    requires var q := StackTheorems.Values(p.st);
             if q == [] then st.threads[t].pc == S.Lost && StackTheorems.Values(st) == []
             else && st.threads[t].pc == S.Won && st.threads[t].out == Some(q[|q| - 1])
                  && StackTheorems.Values(st) == q[..|q| - 1]
    requires r.held == p.held + if st.threads[t].pc == S.Won && st.threads[t].out.Some?
                                then {st.threads[t].out.value} else {}
    ensures var q := FreeObjects(p);
            if q == [] then Local(r, t).pc == S.Lost && r.held == p.held && FreeObjects(r) == []
            else
              && Local(r, t).pc == S.Won && Local(r, t).out == Some(q[|q| - 1])
              && r.held == p.held + {q[|q| - 1]} && FreeObjects(r) == q[..|q| - 1]
  {
  }

  lemma PopOff(st: Word, t: nat) returns (run: seq<S.Label<nat>>, r: Word)
    requires StackInv.Inv(st) && t < |st.threads| && S.AtRest(st.threads[t].pc)
    ensures A.Called(st, run, r, t, S.TryPop) && StackInv.Inv(r) && t < |r.threads|
    ensures var q := StackTheorems.Values(st);
            if q == [] then r.threads[t].pc == S.Lost && StackTheorems.Values(r) == []
            else && r.threads[t].pc == S.Won && r.threads[t].out == Some(q[|q| - 1])
                 && StackTheorems.Values(r) == q[..|q| - 1]
  {
    run, r := A.CallAlone(st, t, S.TryPop);
  }

  /** A `release` that runs alone puts its object back, next to be handed out. */
  lemma {:induction false} ReleaseAlone(p: State, t: nat, o: nat) returns (k: nat, r: State)
    requires StackInv.Inv(p.st) && Counted(p) && t < |p.st.threads| && S.AtRest(Local(p, t).pc) && o in p.held
    ensures S.WellShaped(Next(p, Release(t, o)).st) && r == Exec(Next(p, Release(t, o)), Lifted(t, k))
    ensures StackInv.Inv(r.st) && t < |r.st.threads|
    ensures Local(r, t).pc == S.Won && r.held == p.held - {o} && FreeObjects(r) == FreeObjects(p) + [o]
  {
    ReleaseStarts(p, t, o);
    SomeFree(p, o);
    var run, st := PushBack(p.st, t, o);
    k, r := LiftCall(p, Next(p, Release(t, o)), run, st, t, S.TryPush(o));
  }

  lemma PushBack(st: Word, t: nat, o: nat) returns (run: seq<S.Label<nat>>, r: Word)
    requires StackInv.Inv(st) && t < |st.threads| && S.AtRest(st.threads[t].pc) && st.free.list != []
    ensures A.Called(st, run, r, t, S.TryPush(o)) && StackInv.Inv(r) && t < |r.threads| && r.threads[t].pc == S.Won
    ensures StackTheorems.Values(r) == StackTheorems.Values(st) + [o]
  {
    run, r := A.CallAlone(st, t, S.TryPush(o));
  }

  lemma SomeFree(p: State, o: nat)
    requires Counted(p) && o in p.held
    ensures p.st.free.list != []
  {
    RemoveOne(p.held, o);
  }
}

/** What the pool's constructor leaves, as the sequential code and as the machine see it. */
module PoolFill {
  import Stack
  import StackInv
  import StackTheorems
  import Pool
  import opened StackSolo

  /** Every object below `n` is free, once, or held. */
  ghost predicate Split(free: seq<nat>, held: set<nat>, n: nat) {
    && (forall i :: 0 <= i < |free| ==> free[i] < n && free[i] !in held)
    && (forall i, j :: 0 <= i < j < |free| ==> free[i] != free[j])
    && |free| + |held| == n
  }

  lemma {:induction false} SplitTake(free: seq<nat>, held: set<nat>, n: nat, o: nat)
    requires Split(free + [o], held, n)
    ensures o < n && o !in held && Split(free, held + {o}, n)
  {
    var all := free + [o];
    assert all[|free|] == o;
    forall i | 0 <= i < |free|
      ensures free[i] < n && free[i] !in held + {o}
    {
      assert all[i] == free[i];
    }
    forall i, j | 0 <= i < j < |free|
      ensures free[i] != free[j]
    {
      assert all[i] == free[i] && all[j] == free[j];
    }
  }

  lemma {:induction false} SplitGive(free: seq<nat>, held: set<nat>, n: nat, o: nat)
    requires Split(free, held, n) && o in held && o < n
    ensures |free| < n && Split(free + [o], held - {o}, n)
  {
    assert |held - {o}| == |held| - 1;
  }

  /** The indices below `n`, in order. */
  function UpTo(n: nat): (q: seq<nat>)
    ensures |q| == n
  {
    if n == 0 then [] else UpTo(n - 1) + [n - 1]
  }

  lemma {:induction false} UpToAt(n: nat, i: nat)
    requires i < n
    ensures UpTo(n)[i] == i
  {
    if i < n - 1 { UpToAt(n - 1, i); }
  }

  /** At first all objects are free. */
  lemma SplitAll(n: nat)
    ensures Split(UpTo(n), {}, n)
  {
    forall i | 0 <= i < n ensures UpTo(n)[i] == i { UpToAt(n, i); }
  }

  lemma AllOnData(s: Stack.State<nat>)
    requires StackInv.Inv(s) && StackTheorems.Values(s) == UpTo(|s.next|)
    requires forall t :: 0 <= t < |s.threads| ==> !StackInv.Owns(s.threads[t])
    ensures s.free.list == [] && |s.top.list| == |s.next| && forall k :: 0 <= k < |s.loc| ==> s.loc[k].In?
  {
    LengthsSum(s);
    forall k | 0 <= k < |s.loc|
      ensures s.loc[k].In?
    {
      assert StackInv.NodeOk(s, k);
    }
  }

  /** Replacing threads that hold nothing by any number of idle ones keeps the invariant. */
  lemma {:induction false} IdleThreads(s: Stack.State<nat>, ts: seq<Stack.Local<nat>>)
    requires StackInv.Inv(s) && (forall k :: 0 <= k < |s.loc| ==> s.loc[k].In?)
    requires forall t :: 0 <= t < |ts| ==> ts[t].pc == Stack.Idle
    ensures StackInv.Inv(s.(threads := ts))
  {
    var s' := s.(threads := ts);
    assert StackInv.ListOk(s, Stack.DataList) && StackInv.ListOk(s, Stack.FreeList);
    forall k | 0 <= k < |s.next|
      ensures StackInv.NodeOk(s', k)
    {
      assert StackInv.NodeOk(s, k) && s.loc[k].In?;
    }
    forall u | 0 <= u < |ts|
      ensures StackInv.ThreadOk(s', u)
    {
      assert ts[u].pc == Stack.Idle;
    }
  }

  /** The stack that the fill loop leaves, joined by any number of idle client threads, is the initial state of
      the pool's machine, so its invariant holds from there on. */
  lemma {:induction false} FillStarts(s: Stack.State<nat>, ts: seq<Stack.Local<nat>>)
    requires StackInv.Inv(s) && StackTheorems.Values(s) == UpTo(|s.next|)
    requires forall t :: 0 <= t < |s.threads| ==> !StackInv.Owns(s.threads[t])
    requires forall t :: 0 <= t < |ts| ==> ts[t].pc == Stack.Idle
    ensures var place := seq(|s.next|, i requires 0 <= i < |s.next| => Pool.OnStack(i));
            Pool.Filled(Pool.State(s.(threads := ts), {}, place))
  {
    AllOnData(s);
    IdleThreads(s, ts);
    assert StackInv.ListOk(s, Stack.DataList);
    forall i | 0 <= i < |s.top.list|
      ensures s.top.list[i] < |s.data| && s.data[s.top.list[i]] == i
    {
      UpToAt(|s.next|, i);
      assert StackTheorems.Values(s)[i] == i;
    }
  }
}

/** What the array stack promises, over every run within the ABA bound. */
module StackTheorems {
  import opened Options
  import opened Stack
  import opened StackInv

  lemma NextInv<T>(s: State<T>, a: Label<T>)
    requires Inv(s) && (a.Step? && a.t < |s.threads| ==> TagFresh(s, a.t))
    ensures Inv(Next(s, a))
  {
    match a
    case Call(t, op) =>
      if t < |s.threads| && AtRest(s.threads[t].pc) { LocalStep(s, t, Fresh(op)); }
    case Step(t, spurious) =>
      if t < |s.threads| { ActInv(s, t, spurious); }
  }

  /** The ABA hypothesis on a whole run: whenever a thread attempts its `pop_index` CAS, fewer than
      2^32 exchanges have hit that head since the thread read it. */
  predicate FreshRun<T>(s: State<T>, run: seq<Label<T>>)
    requires WellShaped(s)
    decreases |run|
  {
    run != [] ==>
      && (run[0].Step? && run[0].t < |s.threads| ==> TagFresh(s, run[0].t))
      && (NextShape(s, run[0]); FreshRun(Next(s, run[0]), run[1..]))
  }

  lemma {:induction false} ExecInv<T>(s: State<T>, run: seq<Label<T>>)
    requires Inv(s) && FreshRun(s, run)
    ensures Inv(Exec(s, run))
    decreases |run|
  {
    if run != [] {
      NextInv(s, run[0]);
      ExecInv(Next(s, run[0]), run[1..]);
    }
  }

  // ---------------------------------------------------------------- lists and ownership

  /** The node reached after following `next` `k` times. */
  function Walk(next: seq<nat>, i: nat, k: nat): nat
    decreases k
  {
    if k == 0 || i >= |next| then i else Walk(next, next[i], k - 1)
  }

  /** Following the links from a head visits exactly the list, top to bottom, and then NULL. */
  lemma {:induction false} WalkVisits(next: seq<nat>, list: seq<nat>, d: nat, k: nat)
    requires Chained(next, list) && |next| <= NULL && d < |list| && k <= d + 1
    ensures Walk(next, list[d], k) == if k <= d then list[d - k] else NULL
    decreases k
  {
    if k > 0 {
      assert next[list[d]] == Below(list, d);
      if d > 0 { WalkVisits(next, list, d - 1, k - 1); }
    }
  }

  /** Threads that hold node `k`. */
  ghost predicate HeldBy<T>(s: State<T>, t: nat, k: nat) {
    t < |s.threads| && Owns(s.threads[t]) && s.threads[t].idx == k
  }

  ghost predicate HeldBySome<T>(s: State<T>, k: nat) {
    exists t :: HeldBy(s, t, k)
  }

  /** Both lists are duplicate-free, NULL-terminated chains, and every node is in exactly one place:
      the data list, the free list, or the hands of exactly one thread. */
  ghost predicate Partition<T>(s: State<T>) {
    && WellShaped(s) && |s.next| <= NULL
    && Chained(s.next, s.top.list) && s.top.head.index == TopIndex(s.top.list)
    && Chained(s.next, s.free.list) && s.free.head.index == TopIndex(s.free.list)
    && (forall i, j :: 0 <= i < j < |s.top.list| ==> s.top.list[i] != s.top.list[j])
    && (forall i, j :: 0 <= i < j < |s.free.list| ==> s.free.list[i] != s.free.list[j])
    && (forall k :: 0 <= k < |s.next| ==> ExactlyOne(k in s.top.list, k in s.free.list, HeldBySome(s, k)))
    && (forall t, u, k :: HeldBy(s, t, k) && HeldBy(s, u, k) ==> t == u)
  }

  predicate ExactlyOne(a: bool, b: bool, c: bool) {
    (a && !b && !c) || (!a && b && !c) || (!a && !b && c)
  }

  lemma NodeSomewhere<T>(s: State<T>, k: nat)
    requires Inv(s) && k < |s.next|
    ensures ExactlyOne(k in s.top.list, k in s.free.list, HeldBySome(s, k))
  {
    assert NodeOk(s, k);
    forall w | w in {DataList, FreeList}
      ensures k in Get(s, w).list <==> s.loc[k].In? && s.loc[k].w == w
    {
      if k in Get(s, w).list {
        var i :| 0 <= i < |Get(s, w).list| && Get(s, w).list[i] == k;
        assert ListOk(s, w);
      }
    }
    if s.loc[k].Owned? {
      assert HeldBy(s, s.loc[k].t, k);
    }
    forall t | HeldBy(s, t, k)
      ensures s.loc[k] == Owned(t)
    {
      assert ThreadOk(s, t);
    }
  }

  /** ABA safety: in every run within the tag bound the nodes stay partitioned. */
  lemma {:induction false} PartitionAlways<T>(s: State<T>, run: seq<Label<T>>)
    requires Inv(s) && FreshRun(s, run)
    ensures Partition(Exec(s, run))
  {
    ExecInv(s, run);
    var r := Exec(s, run);
    assert ListOk(r, DataList) && ListOk(r, FreeList);
    forall k | 0 <= k < |r.next|
      ensures ExactlyOne(k in r.top.list, k in r.free.list, HeldBySome(r, k))
    {
      NodeSomewhere(r, k);
    }
    forall t, u, k | HeldBy(r, t, k) && HeldBy(r, u, k)
      ensures t == u
    {
      assert ThreadOk(r, t) && ThreadOk(r, u);
    }
  }

  // ---------------------------------------------------------------- atomic LIFO

  datatype Event<T> = PushE(x: T) | PopE(y: T) | Tau

  /** The values on the stack, bottom first. */
  ghost function Values<T>(s: State<T>): (q: seq<T>)
    requires Inv(s)
    ensures |q| == |s.top.list| && forall i :: 0 <= i < |q| ==> q[i] == s.data[s.top.list[i]]
  {
    assert ListOk(s, DataList);
    seq(|s.top.list|, i requires 0 <= i < |s.top.list| => s.data[s.top.list[i]])
  }

  ghost predicate LifoStep<T>(q: seq<T>, e: Event<T>, q': seq<T>) {
    match e
    case PushE(x) => q' == q + [x]
    case PopE(y) => q == q' + [y]
    case Tau => q' == q
  }

  /** A push takes effect at its CAS on the data head, a pop likewise. */
  ghost function EventOf<T>(s: State<T>, a: Label<T>): Event<T>
    requires Inv(s)
  {
    if a.Call? || a.t >= |s.threads| then Tau
    else
      var l := s.threads[a.t];
      if a.spurious || s.top.head != l.seen then Tau
      else if l.pc == PushCas && l.op.TryPush? then PushE(l.op.v)
      else if l.pc == PopCas && l.op.TryPop? && s.top.list != [] then PopE(Values(s)[|s.top.list| - 1])
      else Tau
  }

  /** Writing the data of a node that is not on the stack changes no value of the stack. */
  lemma WriteOffStack<T>(s: State<T>, t: nat)
    requires Inv(s) && t < |s.threads| && Owns(s.threads[t])
    ensures s.threads[t].idx !in s.top.list
  {
    assert ThreadOk(s, t);
    NodeSomewhere(s, s.threads[t].idx);
    assert HeldBy(s, t, s.threads[t].idx);
  }

  /** The stack is the same when its list is and no node on it was written. */
  lemma SameValues<T>(s: State<T>, s': State<T>)
    requires Inv(s) && Inv(s') && s'.top.list == s.top.list && |s'.data| == |s.data|
    requires forall k :: k in s.top.list && k < |s.data| ==> s'.data[k] == s.data[k]
    ensures Values(s') == Values(s)
  {
    assert ListOk(s, DataList);
  }

  lemma PushRefines<T>(s: State<T>, t: nat)
    requires Inv(s) && t < |s.threads| && s.threads[t].pc == PushCas && s.threads[t].op.TryPush?
    requires s.top.head == s.threads[t].seen && Inv(Act(s, t, false))
    ensures Values(Act(s, t, false)) == Values(s) + [s.threads[t].op.v]
  {
    assert ThreadOk(s, t);
  }

  lemma PopRefines<T>(s: State<T>, t: nat)
    requires Inv(s) && t < |s.threads| && s.threads[t].pc == PopCas && s.threads[t].op.TryPop? && TagFresh(s, t)
    requires s.top.head == s.threads[t].seen && Inv(Act(s, t, false))
    ensures Values(s) != [] && Values(s) == Values(Act(s, t, false)) + [Values(s)[|Values(s)| - 1]]
  {
    AbaSafe(s, t);
    PopKeepsRest(s, t);
    ValuesPop(s, Act(s, t, false));
  }

  /** The stack without its top. */
  lemma ValuesPop<T>(s: State<T>, r: State<T>)
    requires Inv(s) && Inv(r) && s.top.list != [] && r.data == s.data && r.top.list == s.top.list[..|s.top.list| - 1]
    ensures Values(s) != [] && Values(s) == Values(r) + [Values(s)[|Values(s)| - 1]]
  {
    ValuesTop(s.data, s.top.list, Values(s), r.top.list, Values(r));
  }

  lemma {:induction false} ValuesTop<T>(data: seq<T>, list: seq<nat>, q: seq<T>, rest: seq<nat>, p: seq<T>)
    requires |q| == |list| > 0 && rest == list[..|list| - 1] && |p| == |rest|
    requires forall i :: 0 <= i < |q| ==> list[i] < |data| && q[i] == data[list[i]]
    requires forall i :: 0 <= i < |p| ==> rest[i] < |data| && p[i] == data[rest[i]]
    ensures q == p + [q[|q| - 1]]
  {
  }

  lemma PopKeepsRest<T>(s: State<T>, t: nat)
    requires Inv(s) && t < |s.threads| && s.threads[t].pc == PopCas && s.threads[t].op.TryPop? && s.top.list != []
    requires s.top.head == s.threads[t].seen
    ensures var r := Act(s, t, false); r.data == s.data && r.top.list == s.top.list[..|s.top.list| - 1]
  {
    assert ThreadOk(s, t);
  }

  /** The action is an exchange on the data head that can succeed. */
  predicate Exchanges<T>(s: State<T>, t: nat, spurious: bool)
    requires t < |s.threads|
  {
    var l := s.threads[t];
    !spurious && s.top.head == l.seen && ((l.pc == PushCas && l.op.TryPush?) || (l.pc == PopCas && l.op.TryPop?))
  }

  lemma ActKeepsTop<T>(s: State<T>, t: nat, spurious: bool)
    requires WellShaped(s) && t < |s.threads| && !Exchanges(s, t, spurious)
    ensures Act(s, t, spurious).top == s.top
  {
  }

  lemma WritesHeld<T>(s: State<T>, t: nat, spurious: bool, k: nat)
    requires WellShaped(s) && t < |s.threads| && k < |s.data|
    ensures var r := Act(s, t, spurious);
            && |r.data| == |s.data| && |r.next| == |s.next|
            && (r.data[k] != s.data[k] || r.next[k] != s.next[k] ==> HeldBy(s, t, k))
  {
  }

  /** An action touches node `k`: it reads or writes the data of `k`, or it writes the link of `k`. */
  ghost predicate Touches<T>(s: State<T>, t: nat, spurious: bool, k: nat)
    requires WellShaped(s) && t < |s.threads| && k < |s.data|
  {
    var r := Act(s, t, spurious);
    || (s.threads[t].pc == Own && s.threads[t].idx == k)
    || (|r.data| == |s.data| && r.data[k] != s.data[k])
    || (|r.next| == |s.next| && r.next[k] != s.next[k])
  }

  /** A node is touched only by a thread that holds it, and then it is on neither list and no other
      thread holds it. */
  lemma OnlyOwnerTouches<T>(s: State<T>, t: nat, spurious: bool, k: nat)
    requires Inv(s) && t < |s.threads| && k < |s.data| && Touches(s, t, spurious, k)
    ensures HeldBy(s, t, k) && k !in s.top.list && k !in s.free.list
    ensures forall u :: HeldBy(s, u, k) ==> u == t
  {
    WritesHeld(s, t, spurious, k);
    NodeSomewhere(s, k);
    assert ThreadOk(s, t);
    forall u | HeldBy(s, u, k)
      ensures u == t
    {
      assert ThreadOk(s, u);
    }
  }

  lemma OtherRefines<T>(s: State<T>, t: nat, spurious: bool)
    requires Inv(s) && t < |s.threads| && Inv(Act(s, t, spurious)) && !Exchanges(s, t, spurious)
    ensures Values(Act(s, t, spurious)) == Values(s)
  {
    var r := Act(s, t, spurious);
    ActKeepsTop(s, t, spurious);
    if Owns(s.threads[t]) { WriteOffStack(s, t); }
    WritesHeld(s, t, spurious, 0);
    forall k | k in s.top.list && k < |s.data|
      ensures r.data[k] == s.data[k]
    {
      WritesHeld(s, t, spurious, k);
    }
    SameValues(s, r);
  }

  lemma ActRefines<T>(s: State<T>, t: nat, spurious: bool)
    requires Inv(s) && t < |s.threads| && TagFresh(s, t) && Inv(Act(s, t, spurious))
    ensures LifoStep(Values(s), EventOf(s, Step(t, spurious)), Values(Act(s, t, spurious)))
  {
    if !Exchanges(s, t, spurious) {
      OtherRefines(s, t, spurious);
    } else if s.threads[t].op.TryPush? {
      PushRefines(s, t);
    } else {
      PopRefines(s, t);
    }
  }

  /** Every atomic action is a step of the atomic stack or leaves it alone. */
  lemma StepRefines<T>(s: State<T>, a: Label<T>)
    requires Inv(s) && (a.Step? && a.t < |s.threads| ==> TagFresh(s, a.t))
    ensures Inv(Next(s, a))
    ensures LifoStep(Values(s), EventOf(s, a), Values(Next(s, a)))
  {
    NextInv(s, a);
    if a.Step? && a.t < |s.threads| { ActRefines(s, a.t, a.spurious); }
  }

  ghost function Events<T>(s: State<T>, run: seq<Label<T>>): (es: seq<Event<T>>)
    requires Inv(s) && FreshRun(s, run)
    decreases |run|
  {
    if run == [] then [] else NextInv(s, run[0]); [EventOf(s, run[0])] + Events(Next(s, run[0]), run[1..])
  }

  ghost predicate Behaves<T>(q: seq<T>, es: seq<Event<T>>, q': seq<T>)
    decreases |es|
  {
    if es == [] then q == q'
    else match es[0]
      case PushE(x) => Behaves(q + [x], es[1..], q')
      case PopE(y) => q != [] && q[|q| - 1] == y && Behaves(q[..|q| - 1], es[1..], q')
      case Tau => Behaves(q, es[1..], q')
  }

  /** Main theorem: any number of threads, any schedule within the tag bound: the array stack
      behaves as an atomic last-in first-out stack. */
  lemma {:induction false} RefinesLifo<T>(s: State<T>, run: seq<Label<T>>)
    requires Inv(s) && FreshRun(s, run)
    ensures Inv(Exec(s, run))
    ensures Behaves(Values(s), Events(s, run), Values(Exec(s, run)))
    decreases |run|
  {
    if run != [] {
      var a, s1 := run[0], Next(s, run[0]);
      StepRefines(s, a);
      RefinesLifo(s1, run[1..]);
      assert Events(s, run)[0] == EventOf(s, a) && Events(s, run)[1..] == Events(s1, run[1..]);
      if EventOf(s, a).PopE? {
        assert Values(s)[..|Values(s)| - 1] == Values(s1);
      }
    }
  }

  /** Thread `t` makes no new call during the run. */
  ghost predicate SameCall<T>(run: seq<Label<T>>, t: nat) {
    forall i :: 0 <= i < |run| ==> !(run[i].Call? && run[i].t == t)
  }

  /** A pop that takes effect on abstract stack `q` returns the value that was on top of `q`, however
      long it then takes and whatever the other threads do meanwhile. */
  lemma {:induction false} PopReturnsTop<T>(s: State<T>, run: seq<Label<T>>, t: nat)
    requires Inv(s) && FreshRun(s, run) && SameCall(run, t) && t < |s.threads|
    requires |run| > 0 && run[0] == Step(t, false)
    requires s.threads[t].pc == PopCas && s.threads[t].op.TryPop? && s.top.head == s.threads[t].seen
    ensures var r := Exec(s, run);
            && Values(s) != [] && t < |r.threads| && r.threads[t].pc in {Own, PushLoad, PushStore, PushCas, Won}
            && (r.threads[t].pc == Won ==> r.threads[t].out == Some(Values(s)[|Values(s)| - 1]))
  {
    PopSeesTop(s, t);
    NextInv(s, run[0]);
    var s1 := Next(s, run[0]);
    ExecInv(s1, run[1..]);
    SameLin(s1, run[1..], t);
    assert ThreadOk(Exec(s, run), t);
  }

  /** At its exchange a pop records the top of the abstract stack. */
  lemma PopSeesTop<T>(s: State<T>, t: nat)
    requires Inv(s) && t < |s.threads| && TagFresh(s, t)
    requires s.threads[t].pc == PopCas && s.threads[t].op.TryPop? && s.top.head == s.threads[t].seen
    ensures Values(s) != []
    ensures var l' := Next(s, Step(t, false)).threads[t];
            l'.pc == Own && l'.op.TryPop? && l'.lin == Some(Values(s)[|Values(s)| - 1])
  {
    AbaSafe(s, t);
  }

  lemma {:induction false} SameLin<T>(s: State<T>, run: seq<Label<T>>, t: nat)
    requires WellShaped(s) && t < |s.threads| && s.threads[t].pc in {Own, PushLoad, PushStore, PushCas, Won}
    requires SameCall(run, t)
    ensures var r := Exec(s, run);
            && t < |r.threads| && r.threads[t].op == s.threads[t].op && r.threads[t].lin == s.threads[t].lin
            && r.threads[t].pc in {Own, PushLoad, PushStore, PushCas, Won}
    decreases |run|
  {
    if run != [] {
      NextShape(s, run[0]);
      assert !(run[0].Call? && run[0].t == t);
      SameLinStep(s, run[0], t);
      SameLin(Next(s, run[0]), run[1..], t);
    }
  }

  lemma SameLinStep<T>(s: State<T>, a: Label<T>, t: nat)
    requires WellShaped(s) && t < |s.threads| && s.threads[t].pc in {Own, PushLoad, PushStore, PushCas, Won}
    requires !(a.Call? && a.t == t)
    ensures var l, r := s.threads[t], Next(s, a);
            && t < |r.threads| && r.threads[t].op == l.op && r.threads[t].lin == l.lin
            && r.threads[t].pc in {Own, PushLoad, PushStore, PushCas, Won}
  {
    if a.Step? && a.t < |s.threads| && a.t != t { OthersStay(s, a.t, a.spurious, t); }
  }

  lemma OthersStay<T>(s: State<T>, u: nat, spurious: bool, t: nat)
    requires WellShaped(s) && u < |s.threads| && t < |s.threads| && u != t
    ensures |Act(s, u, spurious).threads| == |s.threads| && Act(s, u, spurious).threads[t] == s.threads[t]
  {
  }

  /** The null index at a head means an empty list, and conversely. */
  lemma NullHead<T>(s: State<T>, w: Which)
    requires Inv(s)
    ensures Get(s, w).head.index == NULL <==> Get(s, w).list == []
  {
    var list := Get(s, w).list;
    assert ListOk(s, w);
    if list != [] { assert list[|list| - 1] < |s.next|; }
  }

  /** A call that returns false had just read the head of an empty list: the abstract stack was empty
      for a pop, and no node was free for a push. */
  lemma FailureMeans<T>(s: State<T>, t: nat, spurious: bool)
    requires Inv(s) && t < |s.threads| && TagFresh(s, t)
    requires s.threads[t].pc != Lost && Act(s, t, spurious).threads[t].pc == Lost
    ensures Get(s, From(s.threads[t].op)).list == []
    ensures s.threads[t].op.TryPop? ==> Values(s) == []
  {
    assert ThreadOk(s, t);
    NullHead(s, From(s.threads[t].op));
  }
}

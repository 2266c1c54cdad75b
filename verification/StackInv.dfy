/** The invariant of the array stack and its preservation, with real 32-bit tags. */
module StackInv {
  import opened Options
  import opened Arith
  import opened Stack

  ghost predicate Bounds<T>(s: State<T>) {
    WellShaped(s) && |s.next| <= NULL
  }

  /** What the node at depth `i` of a list links to. */
  function Below(list: seq<nat>, i: nat): nat
    requires i < |list|
  {
    if i == 0 then NULL else list[i - 1]
  }

  function TopIndex(list: seq<nat>): nat {
    if list == [] then NULL else list[|list| - 1]
  }

  /** The head word names the top of the list, its tag counts the CASes modulo 2^32, and the nodes
      are linked top to bottom. */
  ghost predicate Placed(loc: seq<Loc>, list: seq<nat>, w: Which) {
    forall i {:trigger list[i]} :: 0 <= i < |list| ==> list[i] < |loc| && loc[list[i]] == In(w, i)
  }

  ghost predicate Chained(next: seq<nat>, list: seq<nat>) {
    && (forall i {:trigger list[i]} :: 0 <= i < |list| ==> list[i] < |next|)
    && (forall i {:trigger next[list[i]]} :: 0 <= i < |list| ==> next[list[i]] == Below(list, i))
  }

  ghost predicate Linked(next: seq<nat>, loc: seq<Loc>, top: Top, w: Which)
    requires |next| == |loc|
  {
    && top.head == Head(TopIndex(top.list), top.ver % TAGS)
    && Placed(loc, top.list, w) && Chained(next, top.list)
  }

  ghost predicate ListOk<T>(s: State<T>, w: Which)
    requires Bounds(s)
  {
    Linked(s.next, s.loc, Get(s, w), w)
  }

  lemma TagAdvances(v: nat)
    ensures (v % TAGS + 1) % TAGS == (v + 1) % TAGS
  {
  }

  /** Taking the top node off a list. */
  lemma {:induction false} LinkedPop(next: seq<nat>, loc: seq<Loc>, top: Top, w: Which, t: nat, k: nat)
    requires |next| == |loc| && Linked(next, loc, top, w) && top.list != [] && k == top.list[|top.list| - 1]
    ensures next[k] == TopIndex(DropTop(top.list))
    ensures Linked(next, loc[k := Owned(t)], Top(Bump(next[k], top.head), top.ver + 1, DropTop(top.list)), w)
  {
    assert next[top.list[|top.list| - 1]] == Below(top.list, |top.list| - 1);
  }

  /** Putting a node on top of a list. */
  lemma {:induction false} LinkedPush(next: seq<nat>, loc: seq<Loc>, top: Top, w: Which, k: nat)
    requires |next| == |loc| && Linked(next, loc, top, w) && k < |next| && loc[k].Owned?
    requires next[k] == top.head.index
    ensures Linked(next, loc[k := In(w, |top.list|)], Top(Bump(k, top.head), top.ver + 1, top.list + [k]), w)
  {
    TagAdvances(top.ver);
    ChainedPush(next, top.list, k);
  }

  lemma {:induction false} ChainedPush(next: seq<nat>, list: seq<nat>, k: nat)
    requires Chained(next, list) && k < |next| && next[k] == TopIndex(list)
    ensures Chained(next, list + [k])
  {
    forall i | 0 <= i < |list|
      ensures next[list[i]] == Below(list + [k], i)
    {
    }
  }

  /** Relocating or relinking a node that is not on a list leaves that list alone. */
  lemma {:induction false} LinkedOther(next: seq<nat>, loc: seq<Loc>, top: Top, w: Which, k: nat, x: nat, l: Loc)
    requires |next| == |loc| && Linked(next, loc, top, w) && k < |next|
    requires loc[k].In? ==> loc[k].w != w
    ensures Linked(next, loc[k := l], top, w)
    ensures Linked(next[k := x], loc, top, w)
  {
    forall i | 0 <= i < |top.list|
      ensures top.list[i] != k && next[top.list[i]] == Below(top.list, i)
    {
    }
  }

  predicate Owns<T>(l: Local<T>) {
    l.pc in {Own, PushLoad, PushStore, PushCas}
  }

  /** Every node is where `loc` says. */
  ghost predicate NodeOk<T>(s: State<T>, k: nat)
    requires Bounds(s) && k < |s.next|
  {
    match s.loc[k]
    case In(w, i) => i < |Get(s, w).list| && Get(s, w).list[i] == k
    case Owned(t) => t < |s.threads| && Owns(s.threads[t]) && s.threads[t].idx == k
  }

  /** A thread inside `pop_index`: if the head has not been exchanged since it was read, the read
      value is current, and so is the successor. */
  ghost predicate Popping<T>(s: State<T>, l: Local<T>)
    requires Bounds(s)
  {
    var top := Get(s, From(l.op));
    && l.ver <= top.ver && l.seen.tag == l.ver % TAGS && l.seen.index < |s.next|
    && (l.ver == top.ver ==> l.seen == top.head)
    && (l.pc == PopCas && l.ver == top.ver ==> l.nxt == s.next[l.seen.index])
  }

  /** A thread that owns a node. */
  ghost predicate Owning<T>(s: State<T>, u: nat, l: Local<T>)
    requires Bounds(s)
  {
    && l.idx < |s.next| && s.loc[l.idx] == Owned(u)
    && (l.pc == PushCas ==> s.next[l.idx] == l.seen.index)
    && match l.op
       case TryPush(v) => l.pc != Own ==> s.data[l.idx] == v
       case TryPop => if l.pc == Own then l.lin == Some(s.data[l.idx]) else l.out == l.lin && l.lin.Some?
  }

  ghost predicate ThreadOk<T>(s: State<T>, u: nat)
    requires Bounds(s) && u < |s.threads|
  {
    var l := s.threads[u];
    && (l.pc in {PopNext, PopCas} ==> Popping(s, l))
    && (Owns(l) ==> Owning(s, u, l))
    && (l.pc == Won && l.op.TryPop? ==> l.out == l.lin && l.lin.Some?)
  }

  ghost predicate Inv<T>(s: State<T>) {
    && Bounds(s)
    && ListOk(s, DataList) && ListOk(s, FreeList)
    && (forall k {:trigger s.loc[k]} :: 0 <= k < |s.next| ==> NodeOk(s, k))
    && forall u {:trigger s.threads[u]} :: 0 <= u < |s.threads| ==> ThreadOk(s, u)
  }

  lemma InitInv<T>(s: State<T>)
    requires Init(s)
    ensures Inv(s)
  {
    forall k | 0 <= k < |s.next|
      ensures NodeOk(s, k)
    {
      assert s.free.list[|s.next| - 1 - k] == k;
    }
    forall u | 0 <= u < |s.threads|
      ensures ThreadOk(s, u)
    {
      assert s.threads[u].pc == Idle;
    }
  }

  /** The ABA hypothesis: fewer than 2^32 exchanges of the head since the thread read it. */
  predicate TagFresh<T>(s: State<T>, t: nat)
    requires t < |s.threads|
  {
    var l := s.threads[t];
    l.pc == PopCas ==> Get(s, From(l.op)).ver < l.ver + TAGS
  }

  /** ABA safety: under the hypothesis, a head word that compares equal has not been exchanged at
      all, so the CAS installs the true successor of the top node. */
  lemma AbaSafe<T>(s: State<T>, t: nat)
    requires Inv(s) && t < |s.threads| && s.threads[t].pc == PopCas && TagFresh(s, t)
    requires Get(s, From(s.threads[t].op)).head == s.threads[t].seen
    ensures var l := s.threads[t]; var top := Get(s, From(l.op));
            && l.ver == top.ver && top.list != [] && l.seen.index == top.list[|top.list| - 1]
            && l.nxt == s.next[l.seen.index] == TopIndex(DropTop(top.list))
  {
    var l := s.threads[t];
    var top := Get(s, From(l.op));
    assert ThreadOk(s, t);
    ModInjective(l.ver, top.ver, TAGS);
    LinkedPop(s.next, s.loc, top, From(l.op), t, l.seen.index);
  }

  /** What a successful `pop_index` exchange by `t` of node `k` changes. */
  ghost predicate Took<T>(s: State<T>, s': State<T>, t: nat, k: nat)
    requires t < |s.threads| && k < |s.loc|
  {
    var l := s.threads[t];
    var from, to := From(l.op), To(l.op);
    && s'.next == s.next && s'.data == s.data && s'.loc == s.loc[k := Owned(t)]
    && s'.threads == s.threads[t := l.(idx := k, lin := Peek(s), pc := Own)]
    && Get(s', to) == Get(s, to)
    && Get(s', from) == Top(Bump(l.nxt, l.seen), Get(s, from).ver + 1, DropTop(Get(s, from).list))
  }

  lemma PopTook<T>(s: State<T>, t: nat)
    requires Inv(s) && t < |s.threads| && s.threads[t].pc == PopCas && TagFresh(s, t)
    requires Get(s, From(s.threads[t].op)).head == s.threads[t].seen
    ensures s.threads[t].seen.index < |s.next| && Took(s, Act(s, t, false), t, s.threads[t].seen.index)
  {
    assert ThreadOk(s, t);
  }

  lemma PopThreads<T>(s: State<T>, s': State<T>, t: nat, u: nat)
    requires Inv(s) && t < |s.threads| && s.threads[t].pc == PopCas && TagFresh(s, t) && u < |s.threads|
    requires Get(s, From(s.threads[t].op)).head == s.threads[t].seen && s.threads[t].seen.index < |s.next|
    requires Took(s, s', t, s.threads[t].seen.index)
    ensures ThreadOk(s', u)
  {
    AbaSafe(s, t);
    assert ThreadOk(s, t) && ThreadOk(s, u);
  }

  lemma PopNodes<T>(s: State<T>, s': State<T>, t: nat, k: nat)
    requires Inv(s) && t < |s.threads| && s.threads[t].pc == PopCas && k < |s.next|
    requires var list := Get(s, From(s.threads[t].op)).list;
             list != [] && list[|list| - 1] < |s.next| && Took(s, s', t, list[|list| - 1])
    ensures NodeOk(s', k)
  {
    assert NodeOk(s, k);
  }

  lemma PopLists<T>(s: State<T>, s': State<T>, t: nat)
    requires Inv(s) && t < |s.threads| && s.threads[t].pc == PopCas && TagFresh(s, t)
    requires Get(s, From(s.threads[t].op)).head == s.threads[t].seen && s.threads[t].seen.index < |s.next|
    requires Took(s, s', t, s.threads[t].seen.index)
    ensures Bounds(s') && ListOk(s', From(s.threads[t].op)) && ListOk(s', To(s.threads[t].op))
  {
    var l := s.threads[t];
    var from, to := From(l.op), To(l.op);
    AbaSafe(s, t);
    LinkedPop(s.next, s.loc, Get(s, from), from, t, l.seen.index);
    LinkedOther(s.next, s.loc, Get(s, to), to, l.seen.index, 0, Owned(t));
  }

  /** A successful `pop_index` moves the top node from its list to the thread. */
  lemma PopStep<T>(s: State<T>, t: nat)
    requires Inv(s) && t < |s.threads| && s.threads[t].pc == PopCas && TagFresh(s, t)
    requires Get(s, From(s.threads[t].op)).head == s.threads[t].seen
    ensures Inv(Act(s, t, false))
  {
    var s' := Act(s, t, false);
    AbaSafe(s, t);
    PopTook(s, t);
    PopLists(s, s', t);
    forall k | 0 <= k < |s.next| ensures NodeOk(s', k) { PopNodes(s, s', t, k); }
    forall u | 0 <= u < |s.threads| ensures ThreadOk(s', u) { PopThreads(s, s', t, u); }
  }

  lemma PushThreads<T>(s: State<T>, t: nat, u: nat)
    requires Inv(s) && t < |s.threads| && s.threads[t].pc == PushCas
    requires Get(s, To(s.threads[t].op)).head == s.threads[t].seen && u < |s.threads|
    ensures ThreadOk(Act(s, t, false), u)
  {
    assert ThreadOk(s, t) && ThreadOk(s, u);
  }

  lemma PushNodes<T>(s: State<T>, t: nat, k: nat)
    requires Inv(s) && t < |s.threads| && s.threads[t].pc == PushCas
    requires Get(s, To(s.threads[t].op)).head == s.threads[t].seen && k < |s.next|
    ensures NodeOk(Act(s, t, false), k)
  {
    assert ThreadOk(s, t) && NodeOk(s, k);
  }

  /** A successful `push_index` moves the thread's node to the top of the list. */
  lemma PushStep<T>(s: State<T>, t: nat)
    requires Inv(s) && t < |s.threads| && s.threads[t].pc == PushCas
    requires Get(s, To(s.threads[t].op)).head == s.threads[t].seen
    ensures Inv(Act(s, t, false))
  {
    var l := s.threads[t];
    var from, to := From(l.op), To(l.op);
    assert ThreadOk(s, t);
    LinkedPush(s.next, s.loc, Get(s, to), to, l.idx);
    LinkedOther(s.next, s.loc, Get(s, from), from, l.idx, 0, In(to, |Get(s, to).list|));
    var s' := Act(s, t, false);
    assert ListOk(s', from) && ListOk(s', to);
    forall k | 0 <= k < |s.next| ensures NodeOk(s', k) { PushNodes(s, t, k); }
    forall u | 0 <= u < |s.threads| ensures ThreadOk(s', u) { PushThreads(s, t, u); }
  }

  /** Node data and the links of owned nodes are touched by their owner alone. */
  lemma OwnerStep<T>(s: State<T>, t: nat)
    requires Inv(s) && t < |s.threads| && s.threads[t].pc in {Own, PushStore}
    ensures Inv(Act(s, t, false))
  {
    var l := s.threads[t];
    assert ThreadOk(s, t);
    LinkedOther(s.next, s.loc, s.top, DataList, l.idx, l.seen.index, Owned(t));
    LinkedOther(s.next, s.loc, s.free, FreeList, l.idx, l.seen.index, Owned(t));
    var s' := Act(s, t, false);
    forall k | 0 <= k < |s.next|
      ensures NodeOk(s', k)
    {
      assert NodeOk(s, k);
    }
    OwnerKeeps(s, t);
    OwnerSelf(s, t);
    forall u | 0 <= u < |s.threads| && u != t
      ensures ThreadOk(s', u)
    {
      OwnerThreads(s, s', t, u);
    }
  }

  /** `s'` differs from `s` in thread `t` and in the data and link of node `k` at most. */
  ghost predicate Accessed<T>(s: State<T>, s': State<T>, t: nat, k: nat) {
    && s'.top == s.top && s'.free == s.free && s'.loc == s.loc
    && |s'.next| == |s.next| && |s'.data| == |s.data| && |s'.threads| == |s.threads|
    && (forall u {:trigger s'.threads[u]} :: 0 <= u < |s.threads| && u != t ==> s'.threads[u] == s.threads[u])
    && (forall j {:trigger s'.next[j]} :: 0 <= j < |s.next| && j != k ==> s'.next[j] == s.next[j])
    && (forall j {:trigger s'.data[j]} :: 0 <= j < |s.data| && j != k ==> s'.data[j] == s.data[j])
  }

  lemma OwnerKeeps<T>(s: State<T>, t: nat)
    requires Inv(s) && t < |s.threads| && s.threads[t].pc in {Own, PushStore}
    ensures s.threads[t].idx < |s.next| && s.loc[s.threads[t].idx] == Owned(t)
    ensures Accessed(s, Act(s, t, false), t, s.threads[t].idx)
  {
    assert ThreadOk(s, t);
  }

  lemma OwnerSelf<T>(s: State<T>, t: nat)
    requires Inv(s) && t < |s.threads| && s.threads[t].pc in {Own, PushStore}
    ensures Bounds(Act(s, t, false)) && ThreadOk(Act(s, t, false), t)
  {
    assert ThreadOk(s, t);
  }

  /** An access to a node in someone's hands does not disturb the other threads. */
  lemma OwnerThreads<T>(s: State<T>, s': State<T>, t: nat, u: nat)
    requires Inv(s) && t < |s.threads| && u < |s.threads| && u != t && s.threads[t].idx < |s.next|
    requires s.loc[s.threads[t].idx] == Owned(t) && Accessed(s, s', t, s.threads[t].idx)
    ensures ThreadOk(s', u)
  {
    assert ThreadOk(s, u);
    var l := s.threads[u];
    if l.pc == PopCas && l.ver == Get(s, From(l.op)).ver {
      SeenOnList(s, u);
    }
  }

  /** A head that was read and not exchanged since names a node of the list. */
  lemma SeenOnList<T>(s: State<T>, u: nat)
    requires Inv(s) && u < |s.threads| && s.threads[u].pc in {PopNext, PopCas}
    requires s.threads[u].ver == Get(s, From(s.threads[u].op)).ver
    ensures s.threads[u].seen.index < |s.loc| && s.loc[s.threads[u].seen.index].In?
  {
    assert ThreadOk(s, u);
    var l := s.threads[u];
    var list := Get(s, From(l.op)).list;
    assert list[|list| - 1] == l.seen.index;
  }

  /** Actions that change only locals. */
  lemma LocalStep<T>(s: State<T>, t: nat, l': Local<T>)
    requires Inv(s) && t < |s.threads|
    requires Owns(l') == Owns(s.threads[t]) && (Owns(l') ==> l'.idx == s.threads[t].idx)
    requires ThreadOk(SetLocal(s, t, l'), t)
    ensures Inv(SetLocal(s, t, l'))
  {
    var s' := SetLocal(s, t, l');
    forall k | 0 <= k < |s.next|
      ensures NodeOk(s', k)
    {
      assert NodeOk(s, k);
    }
    forall u | 0 <= u < |s.threads| && u != t
      ensures ThreadOk(s', u)
    {
      assert ThreadOk(s, u);
    }
  }

  /** Every atomic action keeps the invariant. */
  lemma ActInv<T>(s: State<T>, t: nat, spurious: bool)
    requires Inv(s) && t < |s.threads| && TagFresh(s, t)
    ensures Inv(Act(s, t, spurious))
  {
    var l := s.threads[t];
    assert ThreadOk(s, t);
    var from, to := Get(s, From(l.op)), Get(s, To(l.op));
    match l.pc {
      case PopCas =>
        if from.head == l.seen && !spurious { PopStep(s, t); } else { LocalStep(s, t, Read(l, from)); }
      case PushCas =>
        if to.head == l.seen && !spurious { PushStep(s, t); }
        else { LocalStep(s, t, Act(s, t, spurious).threads[t]); }
      case Own => OwnerStep(s, t);
      case PushStore => OwnerStep(s, t);
      case PopLoad => LocalStep(s, t, Read(l, from));
      case PopNext => LocalStep(s, t, Act(s, t, spurious).threads[t]);
      case PushLoad => LocalStep(s, t, Act(s, t, spurious).threads[t]);
      case _ =>
    }
  }
}

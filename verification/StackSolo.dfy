/** The array stack used by one thread at a time: what each exchange does to heads and values. */
module StackSolo {
  import opened Options
  import opened Stack
  import opened StackInv
  import opened StackTheorems

  /** Nobody holds a node: the two lists together have every node. */
  lemma LengthsSum<T>(s: State<T>)
    requires Inv(s) && forall t :: 0 <= t < |s.threads| ==> !Owns(s.threads[t])
    ensures |s.top.list| + |s.free.list| == |s.next|
  {
    var all := s.top.list + s.free.list;
    forall k | 0 <= k < |s.next|
      ensures k in all
    {
      NodeSomewhere(s, k);
    }
    assert ListOk(s, DataList) && ListOk(s, FreeList);
    Covers(all, |s.next|);
  }

  /** A duplicate-free sequence of exactly the numbers below `n` has length `n`. */
  lemma {:induction false} Covers(q: seq<nat>, n: nat)
    requires forall i, j :: 0 <= i < j < |q| ==> q[i] != q[j]
    requires forall i :: 0 <= i < |q| ==> q[i] < n
    requires forall k :: 0 <= k < n ==> k in q
    ensures |q| == n
  {
    if n > 0 {
      assert n - 1 in q;
      var i :| 0 <= i < |q| && q[i] == n - 1;
      var r := q[..i] + q[i + 1..];
      forall k | 0 <= k < n - 1
        ensures k in r
      {
        assert k in q;
        var j :| 0 <= j < |q| && q[j] == k;
        assert j < i ==> r[j] == k;
        assert j > i ==> r[j - 1] == k;
      }
      Covers(r, n - 1);
    }
  }

  /** Head words are equal exactly when their halves are. */
  lemma RawEqual(a: nat, b: nat)
    ensures a == b <==> Unpack(a) == Unpack(b)
  {
  }

  /** One action of a lone thread: the invariant and the stack it leaves. */
  lemma Sound<T>(s: State<T>, spurious: bool)
    requires Inv(s) && |s.threads| == 1 && TagFresh(s, 0)
    ensures var s' := Act(s, 0, spurious);
            Inv(s') && |s'.threads| == 1 && LifoStep(Values(s), EventOf(s, Step(0, spurious)), Values(s'))
  {
    OneThread(s, spurious);
    ActInv(s, 0, spurious);
    ActRefines(s, 0, spurious);
  }

  lemma OneThread<T>(s: State<T>, spurious: bool)
    requires WellShaped(s) && |s.threads| == 1
    ensures |Act(s, 0, spurious).threads| == 1
  {
  }

  /** The heads after a `pop_index` exchange. */
  lemma PopHeads<T>(s: State<T>, spurious: bool)
    requires Inv(s) && |s.threads| == 1 && TagFresh(s, 0) && s.threads[0].pc == PopCas
    ensures var l, s' := s.threads[0], Act(s, 0, spurious); var w := From(l.op);
            && s'.next == s.next && s'.data == s.data && Get(s', To(l.op)) == Get(s, To(l.op))
            && (if Get(s, w).head == l.seen && !spurious
                then l.nxt < TAGS && l.seen.tag < TAGS && Get(s', w).head == Bump(l.nxt, l.seen)
                else Get(s', w) == Get(s, w))
  {
    assert ThreadOk(s, 0);
    var l := s.threads[0];
    if Get(s, From(l.op)).head == l.seen && !spurious {
      AbaSafe(s, 0);
      NullHead(s, From(l.op));
      var rest := DropTop(Get(s, From(l.op)).list);
      assert ListOk(s, From(l.op));
      assert rest != [] ==> rest[|rest| - 1] == Get(s, From(l.op)).list[|rest| - 1];
    }
  }

  /** The locals and the stack after a `pop_index` exchange. */
  lemma PopValues<T>(s: State<T>, spurious: bool)
    requires Inv(s) && |s.threads| == 1 && TagFresh(s, 0) && s.threads[0].pc == PopCas
    ensures var l, s' := s.threads[0], Act(s, 0, spurious); var w := From(l.op);
            && Inv(s') && |s'.threads| == 1
            && (if Get(s, w).head == l.seen && !spurious
                then
                  && s'.threads[0] == l.(idx := l.seen.index, lin := Peek(s), pc := Own)
                  && (if w == FreeList then Values(s') == Values(s)
                      else Peek(s).Some? && Values(s) == Values(s') + [Peek(s).value])
                else s'.threads[0] == Read(l, Get(s, w)) && Values(s') == Values(s))
  {
    Sound(s, spurious);
    assert ThreadOk(s, 0);
    if s.threads[0].op.TryPop? && s.top.head == s.threads[0].seen { AbaSafe(s, 0); }
  }

  /** The heads after a `push_index` exchange. */
  lemma PushHeads<T>(s: State<T>, spurious: bool)
    requires Inv(s) && |s.threads| == 1 && s.threads[0].pc == PushCas
    ensures var l, s' := s.threads[0], Act(s, 0, spurious); var w := To(l.op);
            && s'.next == s.next && s'.data == s.data && Get(s', From(l.op)) == Get(s, From(l.op))
            && (if Get(s, w).head == l.seen && !spurious
                then l.idx < TAGS && l.seen.tag < TAGS && Get(s', w).head == Bump(l.idx, l.seen)
                else Get(s', w) == Get(s, w))
  {
    assert ThreadOk(s, 0);
    assert ListOk(s, To(s.threads[0].op));
  }

  /** The locals after a `push_index` exchange. */
  lemma PushLocals<T>(s: State<T>, spurious: bool)
    requires Inv(s) && |s.threads| == 1 && s.threads[0].pc == PushCas
    ensures var l, s' := s.threads[0], Act(s, 0, spurious); var to := Get(s, To(l.op));
            && |s'.threads| == 1
            && s'.threads[0] == if to.head == l.seen && !spurious then l.(pc := Won)
                                else l.(seen := to.head, ver := to.ver, pc := PushStore)
  {
    assert ThreadOk(s, 0);
  }

  /** The stack after a `push_index` exchange. */
  lemma PushValues<T>(s: State<T>, spurious: bool)
    requires Inv(s) && |s.threads| == 1 && s.threads[0].pc == PushCas
    ensures var l, s' := s.threads[0], Act(s, 0, spurious); var to := Get(s, To(l.op));
            && Inv(s')
            && Values(s') == Values(s) + if to.head == l.seen && !spurious && l.op.TryPush? then [l.op.v] else []
  {
    Sound(s, spurious);
  }
}

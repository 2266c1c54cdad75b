/** The 32-bit tag bound of the array stack is exact. */
module StackAba {
  import opened Options
  import opened Stack
  import opened StackInv
  import opened StackTheorems
  import opened StackAlone

  lemma {:induction false} WithinMono<T>(s: State<T>, run: seq<Label<T>>, b: nat, c: nat)
    requires WellShaped(s) && WithinRun(s, run, b) && b <= c
    ensures WithinRun(s, run, c)
    decreases |run|
  {
    if run != [] {
      NextShape(s, run[0]);
      WithinMono(Next(s, run[0]), run[1..], b, c);
    }
  }

  /** A push and a pop by the same thread: the free list is back where it was, two exchanges later. */
  lemma CycleOnce(s: State<int>, t: nat) returns (run: seq<Label<int>>, r: State<int>)
    requires Inv(s) && t < |s.threads| && AtRest(s.threads[t].pc) && s.free.list != []
    ensures WithinRun(s, run, 1) && Exec(s, run) == r && Inv(r) && OthersSame(s, r, t) && AtRest(r.threads[t].pc)
    ensures r.free.list == s.free.list && r.free.ver == s.free.ver + 2
  {
    var s1;
    run, s1, r := SoloTwo(s, t, TryPush(0), TryPop);
  }

  lemma {:induction false} Cycles(s: State<int>, t: nat, n: nat) returns (run: seq<Label<int>>, r: State<int>)
    requires Inv(s) && t < |s.threads| && AtRest(s.threads[t].pc) && s.free.list != []
    ensures WithinRun(s, run, 1) && Exec(s, run) == r && Inv(r) && OthersSame(s, r, t) && AtRest(r.threads[t].pc)
    ensures r.free.list == s.free.list && r.free.ver == s.free.ver + 2 * n
    decreases n
  {
    run, r := [], s;
    if n > 0 {
      var x, s1 := CycleOnce(s, t);
      var y, s2 := Cycles(s1, t, n - 1);
      Then(s, x, s1, y, 1);
      run, r := x + y, s2;
    }
  }

  /** Thread 0 is about to exchange the head it read at version 2, with successor NULL. */
  ghost predicate Armed(s: State<int>) {
    |s.threads| == 3 && s.threads[0] == Local(TryPush(7), PopCas, Head(2, 2), 2, NULL, 0, None, None)
  }

  /** Two pushes by thread 2 leave one node free. */
  lemma FillTwo(s: State<int>) returns (run: seq<Label<int>>, r: State<int>)
    requires Init(s) && |s.next| == 3 && |s.threads| == 3
    ensures WithinRun(s, run, 1) && Exec(s, run) == r && Inv(r) && |r.threads| == 3
    ensures AtRest(r.threads[0].pc) && AtRest(r.threads[1].pc) && AtRest(r.threads[2].pc)
    ensures r.free.list == [2] && r.free.ver == 2 && r.top.list == [0, 1]
  {
    InitInv(s);
    assert s.free.list == [2, 1, 0];
    var s1;
    run, s1, r := SoloTwo(s, 2, TryPush(0), TryPush(0));
  }

  /** Thread 0 reads the head and the successor of the last free node. */
  lemma ReadFree(s: State<int>) returns (run: seq<Label<int>>, r: State<int>)
    requires Inv(s) && |s.threads| == 3 && AtRest(s.threads[0].pc) && s.free.list == [2] && s.free.ver == 2
    ensures WithinRun(s, run, 1) && Exec(s, run) == r && Inv(r)
    ensures Armed(r) && OthersSame(s, r, 0) && r.free == s.free && r.top == s.top
  {
    var s1 := Starts(s, 0, TryPush(7));
    assert ListOk(s1, FreeList) && s1.free.list[0] == 2 && s1.next[s1.free.list[0]] == NULL;
    var x, s2 := SoloReads(s1, 0);
    CallThen(s, 0, TryPush(7), s1, x, s2);
    run, r := [Call(0, TryPush(7))] + x, s2;
  }

  lemma Arm(s: State<int>) returns (run: seq<Label<int>>, r: State<int>)
    requires Init(s) && |s.next| == 3 && |s.threads| == 3
    ensures WithinRun(s, run, 1) && Exec(s, run) == r && Inv(r)
    ensures Armed(r) && AtRest(r.threads[1].pc) && AtRest(r.threads[2].pc)
    ensures r.free.list == [2] && r.free.ver == 2 && r.top.list == [0, 1]
  {
    var x, s1 := FillTwo(s);
    var y, s2 := ReadFree(s1);
    Then(s, x, s1, y, 1);
    run, r := x + y, s2;
  }

  /** Thread 2 pushes the last node and thread 1 takes it off again, holding on to it. */
  lemma Hold(s: State<int>) returns (run: seq<Label<int>>, r: State<int>)
    requires Inv(s) && Armed(s) && AtRest(s.threads[1].pc) && AtRest(s.threads[2].pc)
    requires s.free.list == [2] && s.top.list == [0, 1]
    ensures WithinRun(s, run, 1) && Exec(s, run) == r && Inv(r) && Armed(r)
    ensures r.threads[1].pc == Own && r.threads[1].idx == 2 && r.threads[1].op == TryPop && AtRest(r.threads[2].pc)
    ensures r.top.list == [0, 1] && r.free.list == [] && r.free.ver == s.free.ver + 1
  {
    var x, s1 := SoloOp(s, 2, TryPush(0));
    assert s1.top.list == [0, 1, 2] && s1.free.list == [];
    var y, s2 := SoloTake(s1, 1, TryPop);
    Then(s, x, s1, y, 1);
    run, r := x + y, s2;
  }

  /** Thread 2 empties the stack. */
  lemma Drain(s: State<int>) returns (run: seq<Label<int>>, r: State<int>)
    requires Inv(s) && |s.threads| == 3 && AtRest(s.threads[2].pc) && s.top.list == [0, 1] && s.free.list == []
    ensures WithinRun(s, run, 1) && Exec(s, run) == r && Inv(r) && OthersSame(s, r, 2) && AtRest(r.threads[2].pc)
    ensures r.free.list == [1, 0] && r.free.ver == s.free.ver + 2
  {
    var s1;
    run, s1, r := SoloTwo(s, 2, TryPop, TryPop);
    assert s1.top.list == [0] && s1.free.list == [1];
  }

  /** Thread 1 gives its node back. */
  lemma Return(s: State<int>) returns (run: seq<Label<int>>, r: State<int>)
    requires Inv(s) && Armed(s) && s.threads[1].pc == Own && s.threads[1].idx == 2 && s.threads[1].op == TryPop
    requires s.free.list == [1, 0]
    ensures WithinRun(s, run, 1) && Exec(s, run) == r && Inv(r) && Armed(r) && OthersSame(s, r, 1)
    ensures r.free.list == [1, 0, 2] && r.free.ver == s.free.ver + 1
  {
    run, r := SoloFinish(s, 1);
  }

  /** The other threads empty the stack again, leaving node 2 on top of two other free nodes. */
  lemma Shuffle(s: State<int>) returns (run: seq<Label<int>>, r: State<int>)
    requires Inv(s) && Armed(s) && AtRest(s.threads[1].pc) && AtRest(s.threads[2].pc)
    requires s.free.list == [2] && s.free.ver == 2 && s.top.list == [0, 1]
    ensures WithinRun(s, run, 1) && Exec(s, run) == r && Inv(r)
    ensures Armed(r) && AtRest(r.threads[2].pc) && r.free.list == [1, 0, 2] && r.free.ver == 6
  {
    var x, s1 := Hold(s);
    var y, s2 := Drain(s1);
    Then(s, x, s1, y, 1);
    var z, s3 := Return(s2);
    Then(s, x + y, s2, z, 1);
    run, r := x + y + z, s3;
  }

  /** After exactly 2^32 exchanges the tag has come round: the stale CAS succeeds, installs NULL, and
      two free nodes are lost. */
  lemma Corrupt(s: State<int>) returns (run: seq<Label<int>>)
    requires Inv(s) && Armed(s) && s.free.list == [1, 0, 2] && s.free.ver == 2 + TAGS
    ensures WithinRun(s, run, TAGS + 1)
    ensures var r := Exec(s, run); r.free.head.index == NULL && r.free.list == [1, 0] && !Partition(r)
  {
    assert ListOk(s, FreeList);
    assert ThreadOk(s, 0);
    NextShape(s, Step(0, false));
    run := [Step(0, false)];
    assert run[1..] == [];
  }

  /** One exchange beyond the bound is enough to break the stack: from the constructor, there is a run
      in which no head is exchanged more than 2^32 times between a read and its CAS, and which loses nodes. */
  lemma {:induction false} BoundBreaks(s: State<int>, n: nat) returns (run: seq<Label<int>>)
    requires Init(s) && |s.next| == 3 && |s.threads| == 3 && 2 * n + 4 == TAGS
    ensures WithinRun(s, run, TAGS + 1) && !Partition(Exec(s, run))
  {
    var w, s1 := Arm(s);
    var x, s2 := Shuffle(s1);
    Then(s, w, s1, x, 1);
    var y, s3 := Cycles(s2, 2, n);
    Then(s, w + x, s2, y, 1);
    var z := Corrupt(s3);
    run := w + x + y;
    WithinMono(s, run, 1, TAGS + 1);
    Then(s, run, s3, z, TAGS + 1);
    run := run + z;
  }

  /** The bound `b` is safe: no run within it ever breaks the partition of the nodes. */
  ghost predicate Safe(b: nat) {
    forall s: State<int>, run: seq<Label<int>> :: Init(s) && WithinRun(s, run, b) ==> Partition(Exec(s, run))
  }

  function Fresh3(): (s: State<int>)
    ensures Init(s) && |s.next| == 3 && |s.threads| == 3
  {
    var l := Local(TryPop, Idle, Head(0, 0), 0, 0, 0, None, None);
    State([1, 2, NULL], [0, 0, 0], Top(Head(NULL, 0), 0, []), Top(Head(0, 0), 0, [2, 1, 0]),
          [In(FreeList, 2), In(FreeList, 1), In(FreeList, 0)], [l, l, l])
  }

  /** The stack is ABA-safe for exactly the bounds up to the number of tags. */
  lemma BoundExactly(b: nat)
    ensures Safe(b) <==> b <= TAGS
  {
    if b <= TAGS {
      forall s: State<int>, run: seq<Label<int>> | Init(s) && WithinRun(s, run, b)
        ensures Partition(Exec(s, run))
      {
        InitInv(s);
        WithinFresh(s, run, b);
        PartitionAlways(s, run);
      }
    } else {
      var run := BoundBreaks(Fresh3(), 0x7FFF_FFFE);
      WithinMono(Fresh3(), run, TAGS + 1, b);
    }
  }
}

/** The window between the epoch exchange and the list swap of include/lockless/epoch_reclaimer.hpp is
    reachable: a run from the constructor that frees a pointer under a reader. */
module EpochWindow {
  import opened Epoch
  import opened EpochTheorems

  /** One slot, two workers. */
  function Small(): State {
    State(0, [Slot(false, Out)], [[], [], []], [Idle, Idle], [], [], 0)
  }

  /** A thread registers; a worker retires pointer 1 and advances the epoch to 1, stopping before its
      swap of list 1; then the reader enters, publishing epoch 1. */
  function Opening(): seq<Label> {
    [Register(0), Retire(0, 1), Work(0), Work(0), Work(0), Work(0), LoadEpoch(0), Publish(0)]
  }

  /** The first record. */
  const FIRST := Rec(1, 0, 1, true)

  lemma AfterAdvance()
    ensures Exec(Small(), [Register(0), Retire(0, 1), Work(0), Work(0)])
         == State(0, [Slot(true, Out)], [[FIRST], [], []], [Scan(0, 0), Idle], [], [FIRST], 4)
  {
    var s0 := Small();
    var s1 := State(0, [Slot(true, Out)], [[], [], []], [Idle, Idle], [], [], 1);
    assert Next(s0, Register(0)) == s1;
    assert !Pending(s1, 0);
    var s2 := s1.(workers := [Append(FIRST), Idle], time := 2);
    assert Next(s1, Retire(0, 1)) == s2;
    var s3 := s2.(workers := [Start, Idle], lists := [[FIRST], [], []], appended := [FIRST], time := 3);
    assert s2.lists[0] + [FIRST] == [FIRST] && s2.appended + [FIRST] == [FIRST];
    assert Next(s2, Work(0)) == s3;
    ThreeSteps(s0, [Register(0), Retire(0, 1), Work(0), Work(0)]);
    assert [Register(0), Retire(0, 1), Work(0), Work(0)][3..] == [Work(0)];
    assert [Work(0)][1..] == [];
    assert Exec(s3, [Work(0)]) == Exec(Next(s3, Work(0)), []);
  }

  lemma AfterPublish()
    ensures Exec(Exec(Small(), [Register(0), Retire(0, 1), Work(0), Work(0)]),
                 [Work(0), Work(0), LoadEpoch(0), Publish(0)])
         == State(1, [Slot(true, In(1, 1, 7))], [[FIRST], [], []], [Swap(1), Idle], [], [FIRST], 8)
  {
    AfterAdvance();
    var s4 := State(0, [Slot(true, Out)], [[FIRST], [], []], [Scan(0, 0), Idle], [], [FIRST], 4);
    var s5 := s4.(workers := [Cas(0), Idle], time := 5);
    assert Next(s4, Work(0)) == s5;
    var s6 := s5.(g := 1, workers := [Swap(1), Idle], time := 6);
    assert Next(s5, Work(0)) == s6;
    var s7 := s6.(slots := [Slot(true, Loaded(1))], time := 7);
    assert Next(s6, LoadEpoch(0)) == s7;
    var rest := [Work(0), Work(0), LoadEpoch(0), Publish(0)];
    ThreeSteps(s4, rest);
    assert rest[3..] == [Publish(0)] && [Publish(0)][1..] == [];
    assert Exec(s7, [Publish(0)]) == Exec(Next(s7, Publish(0)), []);
  }

  /** Pointer 2, retired after the reader published epoch 1, is deleted while that reader is still inside
      its section. */
  lemma UseAfterFreeReachable()
    ensures Init(Small())
    ensures var r := Exec(Small(), Opening() + HazardRun(1, 0, 2, 1));
            && Inside(r, 0, 7) && Guards(r.slots[0].reader, Rec(2, 1, 8, false))
            && Rec(2, 1, 8, false) in r.deleted
  {
    var a := [Register(0), Retire(0, 1), Work(0), Work(0)];
    var b := [Work(0), Work(0), LoadEpoch(0), Publish(0)];
    assert Opening() == a + b;
    ExecSplit(Small(), a, b);
    AfterPublish();
    var s := Exec(Small(), Opening());
    assert SwapsList(s.workers[0], 1) && Pending(s, 1);
    HazardFrees(s, 1, 0, 2, 0, 7);
    ExecSplit(Small(), Opening(), HazardRun(1, 0, 2, 1));
  }
}

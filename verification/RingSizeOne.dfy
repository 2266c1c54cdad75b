/** The smallest size the ring buffer's static_assert admits is one too small. */
module RingSizeOne {
  import opened Options
  import opened Arith
  import opened Ring
  import opened RingInv
  import opened RingTheorems

  /** A ring buffer of one cell and one thread, as constructed. */
  function Single(): State<int> {
    State([0], [0], 0, 0, [], [0], [Local(Pop, Idle, 0, 0, 0, None)])
  }

  lemma {:induction false} ExecSplit<T>(s: State<T>, a: seq<Label<T>>, b: seq<Label<T>>)
    requires WellShaped(s)
    ensures Exec(s, a + b) == Exec(Exec(s, a), b)
    decreases |a|
  {
    if a == [] {
      assert a + b == b;
    } else {
      NextShape(s, a[0]);
      ExecSplit(Next(s, a[0]), a[1..], b);
      assert (a + b)[1..] == a[1..] + b;
    }
  }

  /** A run prolonged by one action. */
  lemma {:induction false} Then<T>(s: State<T>, run: seq<Label<T>>, r: State<T>, a: Label<T>)
    requires WellShaped(s) && Exec(s, run) == r
    ensures Exec(s, run + [a]) == Next(r, a)
  {
    ExecSplit(s, run, [a]);
    NextShape(r, a);
    assert [a][1..] == [];
  }

  /** A push up to its claim. */
  lemma Claims(s: State<int>, x: int) returns (run: seq<Label<int>>)
    requires WellShaped(s) && s.Size() == 1 && |s.threads| == 1 && AtRest(s.threads[0].pc)
    requires s.seqs[0] == s.head
    ensures var l := Local(Push(x), Data, s.head, s.head, 0, None);
            Exec(s, run) == s.(head := s.head + 1, log := s.log + [x], holder := [0], threads := [l])
  {
    assert Slot(s.head, 1) == 0;
    var l := Local(Push(x), Seq, s.head, s.head, 0, None);
    var s0 := s.(threads := [Local(Push(x), Load, 0, 0, 0, None)]);
    run := [];
    Then(s, run, s, Call(0, Push(x)));
    run := run + [Call(0, Push(x))];
    Then(s, run, s0, Step(0, false));
    run := run + [Step(0, false)];
    Then(s, run, s.(threads := [l]), Step(0, false));
    run := run + [Step(0, false)];
    Then(s, run, s.(threads := [l.(pc := Cas)]), Step(0, false));
    run := run + [Step(0, false)];
  }

  /** The copy and the publication. */
  lemma Publishes(s: State<int>, x: int, h: nat) returns (run: seq<Label<int>>)
    requires WellShaped(s) && s.Size() == 1 && s.threads == [Local(Push(x), Data, h, h, 0, None)]
    ensures Exec(s, run) == s.(seqs := [h + 1], buf := [x], threads := [Local(Push(x), Won, h, h, 0, None)])
  {
    assert Slot(h, 1) == 0;
    run := [];
    Then(s, run, s, Step(0, false));
    run := run + [Step(0, false)];
    Then(s, run, s.(buf := [x], threads := [Local(Push(x), Store, h, h, 0, None)]), Step(0, false));
    run := run + [Step(0, false)];
  }

  /** A whole push into a buffer of one cell. */
  lemma Pushes(s: State<int>, x: int) returns (run: seq<Label<int>>)
    requires WellShaped(s) && s.Size() == 1 && |s.threads| == 1 && AtRest(s.threads[0].pc)
    requires s.seqs[0] == s.head
    ensures Exec(s, run) == State([s.head + 1], [x], s.head + 1, s.tail, s.log + [x], [0],
                                  [Local(Push(x), Won, s.head, s.head, 0, None)])
  {
    var a := Claims(s, x);
    var b := Publishes(Exec(s, a), x, s.head);
    ExecSplit(s, a, b);
    run := a + b;
  }

  /** With one cell, "published" and "free for the next lap" are the same number: a second push
      succeeds on a full buffer and overwrites the first item, which no pop ever took. */
  lemma SizeOneOverflows() returns (run: seq<Label<int>>)
    ensures Init(Single())
    ensures Exec(Single(), run) == State([2], [2], 2, 0, [1, 2], [0], [Local(Push(2), Won, 1, 1, 0, None)])
  {
    var a := Pushes(Single(), 1);
    var b := Pushes(Exec(Single(), a), 2);
    ExecSplit(Single(), a, b);
    run := a + b;
  }

  /** A size keeps the capacity promise when no run ever claims more items than there are cells. */
  ghost predicate KeepsCapacity(n: nat) {
    forall s: State<int>, run: seq<Label<int>> :: Init(s) && s.Size() == n ==>
      Exec(s, run).head - Exec(s, run).tail <= n
  }

  /** The capacity promise holds exactly for sizes of at least two. */
  lemma CapacityExactly(n: nat)
    requires n >= 1
    ensures KeepsCapacity(n) <==> n >= 2
  {
    if n >= 2 {
      forall s: State<int>, run: seq<Label<int>> | Init(s) && s.Size() == n
        ensures Exec(s, run).head - Exec(s, run).tail <= n
      {
        InitInv(s);
        RefinesFifo(s, run);
      }
    } else {
      var run := SizeOneOverflows();
    }
  }
}

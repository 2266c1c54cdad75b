/** Keys are not unique in the hash map when inserts overlap. */
module HashRace {
  import opened Options
  import opened HashTable
  import opened HashClaims

  const K := Key(0, 0)

  function Empty(): Cell<int> { Cell(false, false, K, 0, None) }

  /** Two slots, two threads. */
  function Two(a: Cell<int>, b: Cell<int>, p: PC, i: nat, q: PC, j: nat): State<int> {
    State([a, b], [Local(Insert(K, 10), p, i, None), Local(Insert(K, 20), q, j, None)])
  }

  function Fresh(): State<int> {
    State([Empty(), Empty()], [Local(Find(K), Idle, 0, None), Local(Find(K), Idle, 0, None)])
  }

  /** Both inserts see slot 0 empty; thread 0 claims it, thread 1 goes on to slot 1 and claims that. */
  function Claiming(): seq<Label<int>> {
    [Call(0, Insert(K, 10)), Call(1, Insert(K, 20)), Step(0), Step(1), Step(0), Step(1), Step(1), Step(1)]
  }

  function Writing(): seq<Label<int>> {
    [Step(0), Step(0), Step(0), Step(1), Step(1), Step(1)]
  }

  lemma {:induction false} Unfold(s: State<int>, run: seq<Label<int>>)
    requires |s.cells| > 0 && run != []
    ensures |Next(s, run[0]).cells| > 0 && Exec(s, run) == Exec(Next(s, run[0]), run[1..])
  {
    NextShape(s, run[0]);
  }

  function Owned(v: int, d: nat, t: nat): Cell<int> { Empty().(occupied := true, claim := Some(Claim(K, v, d, t))) }

  lemma ClaimsBoth()
    ensures Exec(Fresh(), Claiming()) == Two(Owned(10, 0, 0), Owned(20, 1, 1), WriteKey, 0, WriteKey, 1)
  {
    assert At(K, 0, 2) == 0 && At(K, 1, 2) == 1;
    var run := Claiming();
    var s := Fresh();
    var s1 := Next(s, run[0]);
    Unfold(s, run);
    var s2 := Two(Empty(), Empty(), Occ, 0, Occ, 0);
    Unfold(s1, run[1..]);
    assert Next(s1, run[1]) == s2;
    Unfold(s2, run[2..]);
    var s3 := Two(Empty(), Empty(), Cas, 0, Occ, 0);
    assert Next(s2, run[2]) == s3;
    Unfold(s3, run[3..]);
    var s4 := Two(Empty(), Empty(), Cas, 0, Cas, 0);
    assert Next(s3, run[3]) == s4;
    assert run[1..][1..] == run[2..] && run[2..][1..] == run[3..] && run[3..][1..] == run[4..];
    ClaimsLast(run[4..]);
  }

  lemma {:induction false} ClaimsLast(run: seq<Label<int>>)
    requires run == [Step(0), Step(1), Step(1), Step(1)]
    ensures Exec(Two(Empty(), Empty(), Cas, 0, Cas, 0), run)
         == Two(Owned(10, 0, 0), Owned(20, 1, 1), WriteKey, 0, WriteKey, 1)
  {
    assert At(K, 0, 2) == 0 && At(K, 1, 2) == 1;
    var a := Owned(10, 0, 0);
    var s4 := Two(Empty(), Empty(), Cas, 0, Cas, 0);
    Unfold(s4, run);
    var s5 := Two(a, Empty(), WriteKey, 0, Cas, 0);
    assert Next(s4, run[0]) == s5;
    Unfold(s5, run[1..]);
    var s6 := Two(a, Empty(), WriteKey, 0, Occ, 1);
    assert Next(s5, run[1]) == s6;
    Unfold(s6, run[2..]);
    var s7 := Two(a, Empty(), WriteKey, 0, Cas, 1);
    assert Next(s6, run[2]) == s7;
    Unfold(s7, run[3..]);
    assert run[1..][1..] == run[2..] && run[2..][1..] == run[3..] && run[3..][1..] == [];
    assert Next(s7, run[3]) == Two(a, Owned(20, 1, 1), WriteKey, 0, WriteKey, 1);
  }

  lemma WritesBoth()
    ensures var c := Owned(10, 0, 0).(ready := true, value := 10);
            var e := Owned(20, 1, 1).(ready := true, value := 20);
            Exec(Two(Owned(10, 0, 0), Owned(20, 1, 1), WriteKey, 0, WriteKey, 1), Writing())
              == Two(c, e, Yes, 0, Yes, 1)
  {
    assert At(K, 0, 2) == 0 && At(K, 1, 2) == 1;
    var run := Writing();
    var a, b := Owned(10, 0, 0), Owned(20, 1, 1);
    var s0 := Two(a, b, WriteKey, 0, WriteKey, 1);
    Unfold(s0, run);
    var s1 := Two(a, b, WriteValue, 0, WriteKey, 1);
    assert Next(s0, run[0]) == s1;
    Unfold(s1, run[1..]);
    var s2 := Two(a.(value := 10), b, Publish, 0, WriteKey, 1);
    assert Next(s1, run[1]) == s2;
    Unfold(s2, run[2..]);
    var c := a.(value := 10, ready := true);
    var s3 := Two(c, b, Yes, 0, WriteKey, 1);
    assert Next(s2, run[2]) == s3;
    assert run[1..][1..] == run[2..] && run[2..][1..] == run[3..];
    WritesLast(c, run[3..]);
  }

  lemma {:induction false} WritesLast(c: Cell<int>, run: seq<Label<int>>)
    requires run == [Step(1), Step(1), Step(1)]
    ensures Exec(Two(c, Owned(20, 1, 1), Yes, 0, WriteKey, 1), run)
         == Two(c, Owned(20, 1, 1).(ready := true, value := 20), Yes, 0, Yes, 1)
  {
    assert At(K, 1, 2) == 1;
    var b := Owned(20, 1, 1);
    var s3 := Two(c, b, Yes, 0, WriteKey, 1);
    Unfold(s3, run);
    var s4 := Two(c, b, Yes, 0, WriteValue, 1);
    assert Next(s3, run[0]) == s4;
    Unfold(s4, run[1..]);
    var s5 := Two(c, b.(value := 20), Yes, 0, Publish, 1);
    assert Next(s4, run[1]) == s5;
    Unfold(s5, run[2..]);
    assert run[1..][1..] == run[2..] && run[2..][1..] == [];
  }

  lemma ClaimsRun() returns (run: seq<Label<int>>)
    ensures Exec(Fresh(), run) == Two(Owned(10, 0, 0), Owned(20, 1, 1), WriteKey, 0, WriteKey, 1)
  {
    run := Claiming();
    ClaimsBoth();
  }

  lemma WritesRun() returns (run: seq<Label<int>>)
    ensures var c, e := Owned(10, 0, 0).(ready := true, value := 10), Owned(20, 1, 1).(ready := true, value := 20);
            Exec(Two(Owned(10, 0, 0), Owned(20, 1, 1), WriteKey, 0, WriteKey, 1), run) == Two(c, e, Yes, 0, Yes, 1)
  {
    run := Writing();
    WritesBoth();
  }

  /** Two overlapping inserts of the same key both return true and leave it in two slots with two values. */
  lemma RacingInsertsDuplicate() returns (run: seq<Label<int>>)
    ensures Init(Fresh())
    ensures var r := Exec(Fresh(), run);
            && r.threads[0].pc == Yes && r.threads[1].pc == Yes
            && r.threads[0].op == Insert(K, 10) && r.threads[1].op == Insert(K, 20)
            && r.cells[0].ready && r.cells[0].key == K && r.cells[0].value == 10
            && r.cells[1].ready && r.cells[1].key == K && r.cells[1].value == 20
  {
    var a := ClaimsRun();
    var b := WritesRun();
    ExecSplit(Fresh(), a, b);
    run := a + b;
  }
}

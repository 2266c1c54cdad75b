/** Exactly when an insert can add a slot for its key. */
module HashClaims {
  import opened HashTable
  import opened HashTheorems

  /** Some cell is ready with `k`. */
  ghost predicate ReadyWith<V>(s: State<V>, k: Key) {
    exists j :: 0 <= j < |s.cells| && Holds(s.cells[j], k)
  }

  /** Some cell is not yet claimed. */
  ghost predicate HasRoom<V>(s: State<V>) {
    exists j :: 0 <= j < |s.cells| && !s.cells[j].occupied
  }

  /** The insert that thread `u` has just started can still claim a slot. */
  ghost predicate CanClaim<V(!new)>(s: State<V>, u: nat)
    requires |s.cells| > 0 && u < |s.threads|
  {
    exists run :: ClaimsBy(s, u, run)
  }

  ghost predicate ClaimsBy<V>(s: State<V>, u: nat, run: seq<Label<V>>)
    requires |s.cells| > 0 && u < |s.threads|
  {
    SameCall(run, u) && Exec(s, run).threads[u].pc == WriteKey
  }

  lemma {:induction false} ExecSplit<V>(s: State<V>, a: seq<Label<V>>, b: seq<Label<V>>)
    requires |s.cells| > 0
    ensures Exec(s, a + b) == Exec(Exec(s, a), b)
    decreases |a|
  {
    if a == [] {
      assert a + b == b;
    } else {
      NextShape(s, a[0]);
      ExecSplit(Next(s, a[0]), a[1..], b);
      assert (a + b)[1..] == a[1..] + b;
    }
  }

  /** A run of thread `u` alone that changes no cell, followed by `more`. */
  lemma {:induction false} StepThen<V>(s: State<V>, u: nat, r: State<V>, more: seq<Label<V>>)
    requires |s.cells| > 0 && u < |s.threads| && Act(s, u) == r && |r.cells| > 0 && u < |r.threads|
    ensures Exec(s, [Step(u)] + more) == Exec(r, more)
    ensures ClaimsBy(r, u, more) ==> ClaimsBy(s, u, [Step(u)] + more)
  {
    var run: seq<Label<V>> := [Step(u)] + more;
    assert run[0] == Step(u) && run[1..] == more;
    NextShape(s, run[0]);
  }

  /** A thread that runs alone probes past unready cells and other keys. */
  lemma {:induction false} PassSlot<V>(s: State<V>, u: nat) returns (run: seq<Label<V>>)
    requires |s.cells| > 0 && u < |s.threads| && s.threads[u].op.Insert? && s.threads[u].pc == Occ
    requires var c := s.cells[At(s.threads[u].op.k, s.threads[u].i, |s.cells|)];
             c.occupied && !Holds(c, s.threads[u].op.k)
    requires s.threads[u].i + 1 < |s.cells|
    ensures SameCall(run, u)
    ensures Exec(s, run) == SetLocal(s, u, s.threads[u].(i := s.threads[u].i + 1))
  {
    var l := s.threads[u];
    var c := s.cells[At(l.op.k, l.i, |s.cells|)];
    var s1 := SetLocal(s, u, l.(pc := Ready));
    assert Act(s, u) == s1;
    var next := SetLocal(s, u, l.(i := l.i + 1));
    if c.ready {
      var s2 := SetLocal(s, u, l.(pc := Cmp));
      assert Act(s1, u) == s2 && Act(s2, u) == next;
      StepThen(s2, u, next, []);
      StepThen(s1, u, s2, [Step(u)] + []);
      StepThen(s, u, s1, [Step(u)] + ([Step(u)] + []));
      run := [Step(u)] + ([Step(u)] + ([Step(u)] + []));
    } else {
      assert Act(s1, u) == next;
      StepThen(s1, u, next, []);
      StepThen(s, u, s1, [Step(u)] + []);
      run := [Step(u)] + ([Step(u)] + []);
    }
  }

  /** A thread that runs alone claims the first empty slot at or after its depth. */
  lemma {:induction false} SoloClaims<V>(s: State<V>, u: nat, e: nat) returns (run: seq<Label<V>>)
    requires |s.cells| > 0 && u < |s.threads| && s.threads[u].op.Insert? && s.threads[u].pc == Occ
    requires s.threads[u].i <= e < |s.cells| && !s.cells[At(s.threads[u].op.k, e, |s.cells|)].occupied
    requires !ReadyWith(s, s.threads[u].op.k)
    ensures ClaimsBy(s, u, run)
    decreases e - s.threads[u].i
  {
    var l := s.threads[u];
    var c := s.cells[At(l.op.k, l.i, |s.cells|)];
    if c.occupied {
      var a := PassSlot(s, u);
      var b := SoloClaims(Exec(s, a), u, e);
      ExecSplit(s, a, b);
      run := a + b;
    } else {
      var s1 := SetLocal(s, u, l.(pc := Cas));
      assert Act(s, u) == s1;
      StepThen(s1, u, Act(s1, u), []);
      StepThen(s, u, s1, [Step(u)] + []);
      run := [Step(u)] + ([Step(u)] + []);
    }
  }

  /** An insert that starts on a full table never claims a slot. */
  lemma {:induction false} FullRejects<V>(s: State<V>, u: nat, run: seq<Label<V>>)
    requires Inv(s) && !HasRoom(s) && u < |s.threads| && SameCall(run, u) && s.threads[u].op.Insert?
    requires s.threads[u].pc in {Occ, Ready, Cmp, Duplicate, Full}
    ensures Exec(s, run).threads[u].pc in {Occ, Ready, Cmp, Duplicate, Full}
    decreases |run|
  {
    if run != [] {
      var a := run[0];
      NextInv(s, a);
      NextForward(s, a);
      assert !(a.Call? && a.t == u);
      FullStep(s, u, a);
      FullRejects(Next(s, a), u, run[1..]);
    }
  }

  lemma FullStep<V>(s: State<V>, u: nat, a: Label<V>)
    requires Inv(s) && !HasRoom(s) && u < |s.threads| && !(a.Call? && a.t == u) && s.threads[u].op.Insert?
    requires s.threads[u].pc in {Occ, Ready, Cmp, Duplicate, Full} && CellsForward(s, Next(s, a))
    ensures !HasRoom(Next(s, a)) && Next(s, a).threads[u].op == s.threads[u].op
    ensures Next(s, a).threads[u].pc in {Occ, Ready, Cmp, Duplicate, Full}
  {
    forall j | 0 <= j < |s.cells|
      ensures Next(s, a).cells[j].occupied
    {
      assert s.cells[j].occupied;
    }
    assert s.cells[At(s.threads[u].op.k, s.threads[u].i, |s.cells|)].occupied;
  }

  /** A cell that is ready with `k` is where some insert claimed it for `k`. */
  lemma ReadyIsPresent<V>(s: State<V>, k: Key) returns (d: nat)
    requires Inv(s) && ReadyWith(s, k)
    ensures Present(s, k, d)
  {
    var j :| 0 <= j < |s.cells| && Holds(s.cells[j], k);
    assert CellOk(s, j);
    d := s.cells[j].claim.value.depth;
  }

  /** The exact condition: an insert that starts now can claim a slot for its key, whatever is claimed for that key
      already, if and only if no cell is ready with the key and some cell is free. */
  lemma ClaimExactly<V(!new)>(s: State<V>, u: nat)
    requires Inv(s) && u < |s.threads| && s.threads[u].op.Insert? && s.threads[u].pc == Occ && s.threads[u].i == 0
    ensures CanClaim(s, u) <==> !ReadyWith(s, s.threads[u].op.k) && HasRoom(s)
  {
    var k := s.threads[u].op.k;
    if ReadyWith(s, k) {
      var d := ReadyIsPresent(s, k);
      forall run
        ensures !ClaimsBy(s, u, run)
      {
        if SameCall(run, u) { LateInsertRejected(s, k, d, u, run); }
      }
    } else if !HasRoom(s) {
      forall run
        ensures !ClaimsBy(s, u, run)
      {
        if SameCall(run, u) { FullRejects(s, u, run); }
      }
    } else {
      var j :| 0 <= j < |s.cells| && !s.cells[j].occupied;
      var e := DepthOf(k, j, |s.cells|);
      var run := SoloClaims(s, u, e);
    }
  }

  /** Hence a key can be given a second slot exactly while every insert that claimed one for it has not yet set it
      ready, and a slot is left: duplicates need inserts that overlap, and every such overlap can make one. */
  lemma DuplicateExactly<V(!new)>(s: State<V>, d: nat, u: nat)
    requires Inv(s) && u < |s.threads| && s.threads[u].op.Insert? && s.threads[u].pc == Occ && s.threads[u].i == 0
    requires Claimed(s, s.threads[u].op.k, d)
    ensures CanDuplicate(s, d, u) <==> !ReadyWith(s, s.threads[u].op.k) && HasRoom(s)
  {
    var k := s.threads[u].op.k;
    ClaimExactly(s, u);
    if CanClaim(s, u) {
      var run :| ClaimsBy(s, u, run);
      SecondSlot(s, d, u, run);
      assert Duplicates(s, d, u, run);
    } else {
      forall run
        ensures !Duplicates(s, d, u, run)
      {
        assert !ClaimsBy(s, u, run);
      }
    }
  }

  ghost predicate CanDuplicate<V(!new)>(s: State<V>, d: nat, u: nat)
    requires |s.cells| > 0 && u < |s.threads|
  {
    exists run :: Duplicates(s, d, u, run)
  }

  /** The run ends with `u` holding a slot for its key at a depth other than `d`, where the key is claimed too. */
  ghost predicate Duplicates<V>(s: State<V>, d: nat, u: nat, run: seq<Label<V>>)
    requires |s.cells| > 0 && u < |s.threads|
  {
    var r, k := Exec(s, run), s.threads[u].op.k;
    ClaimsBy(s, u, run) && Claimed(r, k, d) && Claimed(r, k, r.threads[u].i) && r.threads[u].i != d
  }

  /** What a claim adds is a slot of its own: the thread's, not one that was claimed before. */
  lemma {:induction false} SecondSlot<V>(s: State<V>, d: nat, u: nat, run: seq<Label<V>>)
    requires Inv(s) && u < |s.threads| && s.threads[u].op.Insert? && s.threads[u].pc == Occ && s.threads[u].i == 0
    requires Claimed(s, s.threads[u].op.k, d) && ClaimsBy(s, u, run)
    ensures Duplicates(s, d, u, run)
  {
    ExecInv(s, run);
    var r := Exec(s, run);
    assert ThreadOk(r, u);
    SameOp(s, run, u);
    NotOlder(s, d, u, run);
  }

  lemma {:induction false} SameOp<V>(s: State<V>, run: seq<Label<V>>, u: nat)
    requires |s.cells| > 0 && u < |s.threads| && SameCall(run, u)
    ensures Exec(s, run).threads[u].op == s.threads[u].op
    decreases |run|
  {
    if run != [] {
      NextShape(s, run[0]);
      assert !(run[0].Call? && run[0].t == u);
      SameOp(Next(s, run[0]), run[1..], u);
    }
  }

  /** An insert never claims a slot that is occupied already. */
  lemma {:induction false} NotOlder<V>(s: State<V>, d: nat, u: nat, run: seq<Label<V>>)
    requires Inv(s) && u < |s.threads| && SameCall(run, u)
    requires s.cells[At(s.threads[u].op.k, d, |s.cells|)].occupied
    requires s.threads[u].pc == WriteKey ==> s.threads[u].i != d
    ensures Exec(s, run).threads[u].pc == WriteKey ==> Exec(s, run).threads[u].i != d
    decreases |run|
  {
    if run != [] {
      NextInv(s, run[0]);
      NextForward(s, run[0]);
      assert !(run[0].Call? && run[0].t == u);
      StillFinding(s, run[0], u);
      NotOlder(Next(s, run[0]), d, u, run[1..]);
    }
  }
}

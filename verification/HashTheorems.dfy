/** What the hash map promises under racing inserts. */
module HashTheorems {
  import opened Options
  import opened Arith
  import opened HashTable

  ghost predicate SameCall<V>(run: seq<Label<V>>, t: nat) {
    forall i :: 0 <= i < |run| ==> !(run[i].Call? && run[i].t == t)
  }

  // ---------------------------------------------------------------- stability

  /** Depth `d` of `k` is where every find of `k` ends: ready with `k`, everything before ready without. */
  ghost predicate Settled<V>(s: State<V>, k: Key, d: nat) {
    && 0 < |s.cells| && d < |s.cells| && Missed(s, k, d)
    && s.cells[At(k, d, |s.cells|)].ready && s.cells[At(k, d, |s.cells|)].key == k
  }

  lemma SettledUnique<V>(s: State<V>, k: Key, d: nat, e: nat)
    requires Settled(s, k, d) && Settled(s, k, e)
    ensures d == e
  {
  }

  lemma SettledStays<V>(s: State<V>, r: State<V>, k: Key, d: nat)
    requires Settled(s, k, d) && CellsForward(s, r)
    ensures Settled(r, k, d) && r.cells[At(k, d, |r.cells|)] == s.cells[At(k, d, |s.cells|)]
  {
    ForwardKeeps(s, r, k, d);
  }

  /** Stability: once a find of `k` has returned a value, every find of `k` that ever returns true returns
      that same value, even when same-key inserts race and leave duplicates further along. */
  lemma {:induction false} FindsAgree<V>(s: State<V>, t: nat, run: seq<Label<V>>, u: nat)
    requires Inv(s) && t < |s.threads| && s.threads[t].op.Find? && s.threads[t].pc == Yes
    requires u < |s.threads| && Exec(s, run).threads[u].op == s.threads[t].op && Exec(s, run).threads[u].pc == Yes
    ensures s.threads[t].out.Some? && Exec(s, run).threads[u].out == s.threads[t].out
  {
    var k, d := s.threads[t].op.k, s.threads[t].i;
    var r := Exec(s, run);
    ExecInv(s, run);
    assert ThreadOk(s, t) && ThreadOk(r, u);
    SettledStays(s, r, k, d);
    SettledUnique(r, k, d, r.threads[u].i);
  }

  // ---------------------------------------------------------------- claimed keys are found

  /** Some insert has claimed a slot for `k`, at probe depth `d`. */
  ghost predicate Claimed<V>(s: State<V>, k: Key, d: nat) {
    0 < |s.cells| && d < |s.cells| && var c := s.cells[At(k, d, |s.cells|)];
    c.occupied && c.claim.Some? && c.claim.value.k == k && c.claim.value.depth == d
  }

  /** A find of `k` that has not returned is still at or before the claimed slot. */
  lemma FindBefore<V>(s: State<V>, k: Key, d: nat, u: nat)
    requires Inv(s) && Claimed(s, k, d) && u < |s.threads|
    requires s.threads[u].op == Find(k) && s.threads[u].pc in {Occ, Ready, Cmp, Read}
    ensures s.threads[u].i <= d && Chain(s, k, d)
  {
    assert ThreadOk(s, u);
    assert CellOk(s, At(k, d, |s.cells|));
  }

  lemma FindStep<V>(s: State<V>, k: Key, d: nat, u: nat)
    requires Inv(s) && Claimed(s, k, d) && u < |s.threads|
    requires s.threads[u].op == Find(k) && s.threads[u].pc in {Occ, Ready, Cmp, Read}
    ensures Act(s, u).threads[u].pc in {Occ, Ready, Cmp, Read, Yes}
  {
    FindBefore(s, k, d, u);
    var l := s.threads[u];
    assert ThreadOk(s, u);
    assert CellOk(s, At(k, l.i, |s.cells|));
    assert l.i < d ==> s.cells[At(k, l.i, |s.cells|)].occupied;
  }

  /** From the moment a slot is claimed for `k`, no find of `k` that has not yet returned can miss it. In
      particular, after an insert of `k` has returned true every later find that completes succeeds. */
  lemma {:induction false} ClaimedIsFound<V>(s: State<V>, k: Key, d: nat, u: nat, run: seq<Label<V>>)
    requires Inv(s) && Claimed(s, k, d) && u < |s.threads| && SameCall(run, u)
    requires s.threads[u].op == Find(k) && s.threads[u].pc in {Occ, Ready, Cmp, Read, Yes}
    ensures var l := Exec(s, run).threads[u];
            l.op == Find(k) && l.pc in {Occ, Ready, Cmp, Read, Yes}
    decreases |run|
  {
    if run != [] {
      var a := run[0];
      var s1 := Next(s, a);
      NextInv(s, a);
      NextForward(s, a);
      assert !(a.Call? && a.t == u);
      if a == Step(u) && s.threads[u].pc != Yes {
        FindStep(s, k, d, u);
      }
      StillFinding(s, a, u);
      ClaimedIsFound(s1, k, d, u, run[1..]);
    }
  }

  lemma StillFinding<V>(s: State<V>, a: Label<V>, u: nat)
    requires |s.cells| > 0 && u < |s.threads| && !(a.Call? && a.t == u)
    ensures Next(s, a).threads[u].op == s.threads[u].op
    ensures a != Step(u) || s.threads[u].pc == Yes ==> Next(s, a).threads[u] == s.threads[u]
  {
  }

  /** An insert that returned true left its key claimed and ready, with its value. */
  lemma InsertedIsClaimed<V>(s: State<V>, t: nat)
    requires Inv(s) && t < |s.threads| && s.threads[t].op.Insert? && s.threads[t].pc == Yes
    ensures exists d :: Claimed(s, s.threads[t].op.k, d)
  {
    var l := s.threads[t];
    assert ThreadOk(s, t);
    var j := At(l.op.k, l.i, |s.cells|);
    assert CellOk(s, j);
    assert Claimed(s, l.op.k, s.cells[j].claim.value.depth);
  }

  /** A value that a find returns was supplied for that key by the insert that claimed the slot. */
  lemma FoundWasInserted<V>(s: State<V>, u: nat)
    requires Inv(s) && u < |s.threads| && s.threads[u].op.Find? && s.threads[u].pc == Yes
    ensures var l := s.threads[u]; var c := s.cells[At(l.op.k, l.i, |s.cells|)];
            c.claim.Some? && c.claim.value.k == l.op.k && l.out == Some(c.claim.value.v)
  {
    assert ThreadOk(s, u);
    assert CellOk(s, At(s.threads[u].op.k, s.threads[u].i, |s.cells|));
  }

  // ---------------------------------------------------------------- later finds

  /** The state after `first`, a new find of `k` by thread `u`, and `second`. */
  function Later<V>(s: State<V>, first: seq<Label<V>>, u: nat, k: Key, second: seq<Label<V>>): State<V>
    requires |s.cells| > 0
  {
    var m := Exec(s, first);
    NextShape(m, Call(u, Find(k)));
    Exec(Next(m, Call(u, Find(k))), second)
  }

  /** A find of `k` that starts after a slot was claimed for `k`, and runs for any time, has not failed; if it
      has returned, its value is one that an insert supplied for `k`. */
  lemma {:induction false} LaterFind<V>(
    s: State<V>, k: Key, d: nat, first: seq<Label<V>>, u: nat, second: seq<Label<V>>)
    requires Inv(s) && Claimed(s, k, d) && u < |s.threads|
    requires AtRest(Exec(s, first).threads[u].pc) && SameCall(second, u)
    ensures var r := Later(s, first, u, k, second); var l := r.threads[u];
            && Inv(r) && CellsForward(s, r) && l.op == Find(k) && l.pc in {Occ, Ready, Cmp, Read, Yes}
            && (l.pc == Yes ==> var c := r.cells[At(k, l.i, |r.cells|)].claim;
                                c.Some? && c.value.k == k && l.out == Some(c.value.v))
  {
    ExecInv(s, first);
    var m := Exec(s, first);
    var a: Label<V> := Call(u, Find(k));
    NextInv(m, a);
    NextForward(m, a);
    assert Claimed(Next(m, a), k, d);
    ClaimedIsFound(Next(m, a), k, d, u, second);
    ExecInv(Next(m, a), second);
    var r := Later(s, first, u, k, second);
    if r.threads[u].pc == Yes { FoundWasInserted(r, u); }
  }

  /** After `insert(k, v)` has returned true, no later find of `k` fails, and what it returns was supplied by some
      insert of `k`. */
  lemma {:induction false} InsertedIsFound<V>(s: State<V>, t: nat, first: seq<Label<V>>, u: nat, second: seq<Label<V>>)
    requires Inv(s) && t < |s.threads| && s.threads[t].op.Insert? && s.threads[t].pc == Yes && u < |s.threads|
    requires AtRest(Exec(s, first).threads[u].pc) && SameCall(second, u)
    ensures var k := s.threads[t].op.k; var r := Later(s, first, u, k, second); var l := r.threads[u];
            && l.op == Find(k) && l.pc in {Occ, Ready, Cmp, Read, Yes}
            && (l.pc == Yes ==> var c := r.cells[At(k, l.i, |r.cells|)].claim;
                                c.Some? && c.value.k == k && l.out == Some(c.value.v))
  {
    InsertedIsClaimed(s, t);
    var d :| Claimed(s, s.threads[t].op.k, d);
    LaterFind(s, s.threads[t].op.k, d, first, u, second);
  }

  /** Once a find of `k` has returned a value, no later find of `k` fails, and each returns that same value. */
  lemma {:induction false} FoundForever<V>(s: State<V>, t: nat, first: seq<Label<V>>, u: nat, second: seq<Label<V>>)
    requires Inv(s) && t < |s.threads| && s.threads[t].op.Find? && s.threads[t].pc == Yes && u < |s.threads|
    requires AtRest(Exec(s, first).threads[u].pc) && SameCall(second, u)
    ensures var l := Later(s, first, u, s.threads[t].op.k, second).threads[u];
            && l.op == s.threads[t].op && l.pc in {Occ, Ready, Cmp, Read, Yes}
            && (l.pc == Yes ==> l.out == s.threads[t].out)
  {
    var k, i := s.threads[t].op.k, s.threads[t].i;
    assert ThreadOk(s, t);
    assert CellOk(s, At(k, i, |s.cells|));
    var d := s.cells[At(k, i, |s.cells|)].claim.value.depth;
    assert Claimed(s, k, d);
    LaterFind(s, k, d, first, u, second);
    var r := Later(s, first, u, k, second);
    if r.threads[u].pc == Yes {
      assert ThreadOk(r, u);
      SettledStays(s, r, k, i);
      SettledUnique(r, k, i, r.threads[u].i);
    }
  }

  // ---------------------------------------------------------------- what a failure means

  /** Every slot is at some probe depth of every key. */
  lemma DepthOf(k: Key, j: nat, n: nat) returns (d: nat)
    requires j < n
    ensures d < n && At(k, d, n) == j
  {
    var h := k.hash % n;
    d := if j >= h then j - h else j + n - h;
    if j >= h {
      ModUnique(h + d, n, 0, j);
    } else {
      ModUnique(h + d, n, 1, j);
    }
  }

  /** A find that returns false at an empty slot: the key is claimed nowhere. After a full probe: every
      slot is ready and holds another key. */
  lemma FindFailure<V>(s: State<V>, u: nat)
    requires Inv(s) && u < |s.threads| && s.threads[u].op.Find? && s.threads[u].pc in {Occ, Ready, Cmp, Read}
    requires Act(s, u).threads[u].pc == Absent
    ensures forall d :: !Claimed(s, s.threads[u].op.k, d)
    ensures s.threads[u].pc == Cmp ==>
              forall j :: 0 <= j < |s.cells| ==> s.cells[j].ready && s.cells[j].key != s.threads[u].op.k
  {
    var l := s.threads[u];
    var n := |s.cells|;
    assert ThreadOk(s, u);
    forall d ensures !Claimed(s, l.op.k, d) {
      if Claimed(s, l.op.k, d) { FindStep(s, l.op.k, d, u); }
    }
    if l.pc == Cmp {
      MissedGrows(s, l.op.k, l.i);
      forall j | 0 <= j < n
        ensures s.cells[j].ready && s.cells[j].key != l.op.k
      {
        var d := DepthOf(l.op.k, j, n);
      }
    }
  }

  /** An insert returns false at a ready slot that already holds its key, or after finding every slot
      occupied. */
  lemma InsertFailure<V>(s: State<V>, u: nat)
    requires Inv(s) && u < |s.threads| && s.threads[u].op.Insert? && !AtRest(s.threads[u].pc)
    requires Act(s, u).threads[u].pc in {Duplicate, Full}
    ensures Act(s, u).threads[u].pc == Duplicate ==>
              exists j :: 0 <= j < |s.cells| && Holds(s.cells[j], s.threads[u].op.k)
    ensures Act(s, u).threads[u].pc == Full ==> forall j :: 0 <= j < |s.cells| ==> s.cells[j].occupied
  {
    var l := s.threads[u];
    var n := |s.cells|;
    assert ThreadOk(s, u);
    assert CellOk(s, At(l.op.k, l.i, n));
    if Act(s, u).threads[u].pc == Duplicate {
      assert Holds(s.cells[At(l.op.k, l.i, n)], l.op.k);
    } else {
      ChainGrows(s, l.op.k, l.i);
      forall j | 0 <= j < n
        ensures s.cells[j].occupied
      {
        var d := DepthOf(l.op.k, j, n);
      }
    }
  }

  predicate Holds<V>(c: Cell<V>, k: Key) { c.ready && c.key == k }

  // ---------------------------------------------------------------- duplicates need overlap

  /** `k` is ready at depth `d`. */
  ghost predicate Present<V>(s: State<V>, k: Key, d: nat) {
    Claimed(s, k, d) && s.cells[At(k, d, |s.cells|)].ready
  }

  /** An insert of `k` that starts when `k` is already ready never claims a slot: keys are duplicated only
      by inserts that overlap. */
  lemma {:induction false} LateInsertRejected<V>(s: State<V>, k: Key, d: nat, u: nat, run: seq<Label<V>>)
    requires Inv(s) && Present(s, k, d) && u < |s.threads| && SameCall(run, u)
    requires s.threads[u].op.Insert? && s.threads[u].op.k == k
    requires s.threads[u].pc == Duplicate || (s.threads[u].pc in {Occ, Ready, Cmp} && s.threads[u].i <= d)
    ensures var l := Exec(s, run).threads[u];
            l.op == s.threads[u].op && (l.pc == Duplicate || (l.pc in {Occ, Ready, Cmp} && l.i <= d))
    decreases |run|
  {
    if run != [] {
      var a := run[0];
      NextInv(s, a);
      NextForward(s, a);
      assert !(a.Call? && a.t == u);
      RejectStep(s, k, d, u, a);
      PresentStays(s, Next(s, a), k, d);
      LateInsertRejected(Next(s, a), k, d, u, run[1..]);
    }
  }

  lemma PresentStays<V>(s: State<V>, r: State<V>, k: Key, d: nat)
    requires Present(s, k, d) && CellsForward(s, r)
    ensures Present(r, k, d)
  {
  }

  lemma RejectStep<V>(s: State<V>, k: Key, d: nat, u: nat, a: Label<V>)
    requires Inv(s) && Present(s, k, d) && u < |s.threads| && !(a.Call? && a.t == u)
    requires s.threads[u].op.Insert? && s.threads[u].op.k == k
    requires s.threads[u].pc == Duplicate || (s.threads[u].pc in {Occ, Ready, Cmp} && s.threads[u].i <= d)
    ensures var l := Next(s, a).threads[u];
            l.op == s.threads[u].op && (l.pc == Duplicate || (l.pc in {Occ, Ready, Cmp} && l.i <= d))
  {
    if a == Step(u) {
      var l := s.threads[u];
      assert CellOk(s, At(k, d, |s.cells|));
      assert Chain(s, k, d);
      assert l.i < d ==> s.cells[At(k, l.i, |s.cells|)].occupied;
    }
  }
}

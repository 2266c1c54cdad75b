/** What a call on the hash map answers when it runs alone on a table in which no claim waits for its stores. */
module HashAlone {
  import opened Options
  import opened HashTable
  import opened HashTheorems
  import opened HashClaims

  /** Every claimed cell is ready. */
  ghost predicate Tidy<V>(s: State<V>) {
    forall j {:trigger s.cells[j]} :: 0 <= j < |s.cells| && s.cells[j].occupied ==> s.cells[j].ready
  }

  /** The run is thread `t` alone. */
  ghost predicate OnlyBy<V>(run: seq<Label<V>>, t: nat) {
    forall i :: 0 <= i < |run| ==> run[i] == Step(t)
  }

  /** One more action in front of a run. */
  lemma {:induction false} Before<V>(s: State<V>, t: nat, s1: State<V>, run: seq<Label<V>>, r: State<V>)
    requires |s.cells| > 0 && t < |s.threads| && Act(s, t) == s1 && |s1.cells| > 0
    requires Exec(s1, run) == r && OnlyBy(run, t)
    ensures Exec(s, [Step(t)] + run) == r && OnlyBy([Step(t)] + run, t)
  {
    var all: seq<Label<V>> := [Step(t)] + run;
    assert all[0] == Step(t) && all[1..] == run;
    NextShape(s, all[0]);
  }

  /** The next action as a run. */
  lemma {:induction false} OneStep<V>(s: State<V>, t: nat, r: State<V>) returns (run: seq<Label<V>>)
    requires |s.cells| > 0 && t < |s.threads| && Act(s, t) == r && |r.cells| > 0
    ensures Exec(s, run) == r && OnlyBy(run, t) && |run| == 1
  {
    run := [];
    Before(s, t, r, run, r);
    run := [Step(t)] + run;
  }

  lemma {:induction false} Both<V>(s: State<V>, t: nat, x: seq<Label<V>>, s1: State<V>, y: seq<Label<V>>, r: State<V>)
    requires |s.cells| > 0 && Exec(s, x) == s1 && Exec(s1, y) == r && OnlyBy(x, t) && OnlyBy(y, t)
    ensures Exec(s, x + y) == r && OnlyBy(x + y, t)
  {
    ExecSplit(s, x, y);
  }

  /** A probe that looks at a ready cell: two loads, and then the comparison is next. */
  lemma {:induction false} LooksAt<V>(s: State<V>, t: nat) returns (run: seq<Label<V>>, r: State<V>)
    requires |s.cells| > 0 && t < |s.threads| && s.threads[t].pc == Occ
    requires s.cells[Here(s, t)].occupied && s.cells[Here(s, t)].ready
    ensures Exec(s, run) == r && OnlyBy(run, t) && |run| == 2 && r == SetLocal(s, t, s.threads[t].(pc := Cmp))
  {
    var l := s.threads[t];
    var s1 := SetLocal(s, t, l.(pc := Ready));
    r := SetLocal(s, t, l.(pc := Cmp));
    assert Act(s, t) == s1 && Act(s1, t) == r;
    var x := OneStep(s, t, s1);
    var y := OneStep(s1, t, r);
    Both(s, t, x, s1, y, r);
    run := x + y;
  }

  /** A probe past a ready cell with another key. */
  lemma {:induction false} Passes<V>(s: State<V>, t: nat) returns (run: seq<Label<V>>, r: State<V>)
    requires |s.cells| > 0 && t < |s.threads| && s.threads[t].pc == Occ
    requires var c := s.cells[Here(s, t)]; c.occupied && c.ready && c.key != s.threads[t].op.k
    ensures Exec(s, run) == r && OnlyBy(run, t) && |run| == 3 && r == SetLocal(s, t, Probe(s.threads[t], |s.cells|))
  {
    var x, s1 := LooksAt(s, t);
    r := SetLocal(s, t, Probe(s.threads[t], |s.cells|));
    assert Act(s1, t) == r;
    var y := OneStep(s1, t, r);
    Both(s, t, x, s1, y, r);
    run := x + y;
  }

  /** Reaching the cell of the key. */
  lemma {:induction false} Reaches<V>(s: State<V>, t: nat) returns (run: seq<Label<V>>, r: State<V>)
    requires |s.cells| > 0 && t < |s.threads| && s.threads[t].pc == Occ
    requires var c := s.cells[Here(s, t)]; c.occupied && c.ready && c.key == s.threads[t].op.k
    ensures Exec(s, run) == r && OnlyBy(run, t) && |run| <= 4
    ensures var l := s.threads[t];
            r == SetLocal(s, t, if l.op.Insert? then l.(pc := Duplicate)
                                else l.(pc := Yes, out := Some(s.cells[Here(s, t)].value)))
  {
    var l := s.threads[t];
    var x, s1 := LooksAt(s, t);
    var s2 := Act(s1, t);
    var y := OneStep(s1, t, s2);
    Both(s, t, x, s1, y, s2);
    run, r := x + y, s2;
    if l.op.Find? {
      r := SetLocal(s, t, l.(pc := Yes, out := Some(s.cells[Here(s, t)].value)));
      assert Act(s2, t) == r;
      var z := OneStep(s2, t, r);
      Both(s, t, x + y, s2, z, r);
      run := x + y + z;
    }
  }

  // ---------------------------------------------------------------- where a probe ends

  /** No cell holds `k`: a probe came to a free cell, or past the last one. */
  lemma NowhereReady<V>(s: State<V>, k: Key, i: nat)
    requires Inv(s) && Missed(s, k, i) && i <= |s.cells|
    requires i < |s.cells| ==> !s.cells[At(k, i, |s.cells|)].occupied
    ensures !ReadyWith(s, k)
  {
    forall j | 0 <= j < |s.cells|
      ensures !Holds(s.cells[j], k)
    {
      assert CellOk(s, j);
    }
  }

  /** A probe of a tidy table by thread `t` alone stops at the cell of its key, at a free cell, or at the end. */
  lemma {:induction false} ProbeAlone<V>(s: State<V>, t: nat) returns (run: seq<Label<V>>, r: State<V>, d: nat)
    requires Inv(s) && Tidy(s) && t < |s.threads| && s.threads[t].pc == Occ && s.threads[t].i < |s.cells|
    requires Missed(s, s.threads[t].op.k, s.threads[t].i)
    ensures var l, n := s.threads[t], |s.cells|;
            && Exec(s, run) == r && OnlyBy(run, t) && |run| <= 3 * (d - l.i) && l.i <= d <= n
            && Missed(s, l.op.k, d) && (forall e: nat :: l.i <= e < d ==> s.cells[At(l.op.k, e, n)].occupied)
            && (if d == n then r == SetLocal(s, t, Probe(l.(i := n - 1), n))
                else r == SetLocal(s, t, l.(i := d)) && (s.cells[At(l.op.k, d, n)].occupied ==> Settled(s, l.op.k, d)))
    decreases |s.cells| - s.threads[t].i
  {
    var l, n := s.threads[t], |s.cells|;
    var c := s.cells[Here(s, t)];
    if !c.occupied || c.key == l.op.k {
      run, r, d := [], s, l.i;
      assert s.threads[t := l.(i := l.i)] == s.threads;
    } else {
      var x, s1 := Passes(s, t);
      MissedGrows(s, l.op.k, l.i);
      if l.i + 1 == n {
        run, r, d := x, s1, n;
      } else {
        ExecInv(s, x);
        var y;
        y, r, d := ProbeAlone(s1, t);
        Both(s, t, x, s1, y, r);
        run := x + y;
      }
    }
  }

  // ---------------------------------------------------------------- whole calls

  /** A find that runs alone returns, with the value of the first cell of its key, or with nothing exactly if no cell
      holds the key; and it changes no cell. */
  lemma {:induction false} FindAlone<V>(s: State<V>, t: nat, k: Key) returns (run: seq<Label<V>>, r: State<V>)
    requires Inv(s) && Tidy(s) && t < |s.threads| && AtRest(s.threads[t].pc)
    ensures |Next(s, Call(t, Find(k))).cells| > 0 && r == Exec(Next(s, Call(t, Find(k))), run)
    ensures OnlyBy(run, t) && |run| <= 3 * |s.cells| + 1 && r.cells == s.cells && t < |r.threads|
    ensures var l := r.threads[t];
            && l.op == Find(k) && l.pc == (if ReadyWith(s, k) then Yes else Absent)
            && (l.pc == Yes ==> Settled(s, k, l.i) && l.out == Some(s.cells[At(k, l.i, |s.cells|)].value))
  {
    var s0 := Next(s, Call(t, Find(k)));
    NextInv(s, Call(t, Find(k)));
    var x, s1, d := ProbeAlone(s0, t);
    run, r := x, s1;
    if d < |s.cells| {
      var y;
      if s.cells[At(k, d, |s.cells|)].occupied {
        y, r := Reaches(s1, t);
        assert Holds(s.cells[At(k, d, |s.cells|)], k);
      } else {
        r := Act(s1, t);
        y := OneStep(s1, t, r);
        NowhereReady(s, k, d);
      }
      Both(s0, t, x, s1, y, r);
      run := x + y;
    } else {
      NowhereReady(s, k, d);
    }
  }

  /** The three stores after a claim. */
  lemma {:induction false} StoresAlone<V>(s: State<V>, t: nat, j: nat) returns (run: seq<Label<V>>, r: State<V>)
    requires |s.cells| > 0 && t < |s.threads| && s.threads[t].pc == WriteKey && s.threads[t].op.Insert?
    requires j == Here(s, t)
    ensures Exec(s, run) == r && OnlyBy(run, t) && |run| == 3
    ensures var l, c := s.threads[t], s.cells[j];
            r == SetCell(SetLocal(s, t, l.(pc := Yes)), j, c.(key := l.op.k, value := l.op.v, ready := true))
  {
    var l, c := s.threads[t], s.cells[j];
    var s1 := SetCell(SetLocal(s, t, l.(pc := WriteValue)), j, c.(key := l.op.k));
    var s2 := SetCell(SetLocal(s, t, l.(pc := Publish)), j, c.(key := l.op.k, value := l.op.v));
    r := SetCell(SetLocal(s, t, l.(pc := Yes)), j, c.(key := l.op.k, value := l.op.v, ready := true));
    assert Act(s, t) == s1;
    assert Act(s1, t) == s2;
    assert Act(s2, t) == r;
    var x := OneStep(s, t, s1);
    var y := OneStep(s1, t, s2);
    Both(s, t, x, s1, y, s2);
    var z := OneStep(s2, t, r);
    Both(s, t, x + y, s2, z, r);
    run := x + y + z;
  }

  /** The claim of a free cell, and its stores. */
  lemma {:induction false} ClaimAlone<V>(s: State<V>, t: nat, j: nat) returns (run: seq<Label<V>>, r: State<V>)
    requires |s.cells| > 0 && t < |s.threads| && s.threads[t].pc == Occ && s.threads[t].op.Insert?
    requires j == Here(s, t) && !s.cells[j].occupied
    ensures Exec(s, run) == r && OnlyBy(run, t) && |run| == 5
    ensures t < |r.threads| && r.threads[t] == s.threads[t].(pc := Yes)
    ensures |r.cells| == |s.cells| && r.cells == s.cells[j := r.cells[j]]
    ensures var c, op := r.cells[j], s.threads[t].op; c.occupied && c.ready && c.key == op.k && c.value == op.v
  {
    var s1 := SetLocal(s, t, s.threads[t].(pc := Cas));
    assert Act(s, t) == s1;
    var x := OneStep(s, t, s1);
    var s2 := Act(s1, t);
    var y := OneStep(s1, t, s2);
    Both(s, t, x, s1, y, s2);
    var z;
    z, r := StoresAlone(s2, t, j);
    Both(s, t, x + y, s2, z, r);
    run := x + y + z;
  }

  /** An insert that runs alone returns true exactly if no cell holds its key and some cell is free, and then fills one
      free cell with its pair and changes no other; otherwise it changes nothing. */
  lemma {:induction false} InsertAlone<V>(s: State<V>, t: nat, k: Key, v: V)
    returns (run: seq<Label<V>>, r: State<V>, j: nat)
    requires Inv(s) && Tidy(s) && t < |s.threads| && AtRest(s.threads[t].pc)
    ensures |Next(s, Call(t, Insert(k, v))).cells| > 0 && r == Exec(Next(s, Call(t, Insert(k, v))), run)
    ensures OnlyBy(run, t) && |run| <= 3 * |s.cells| + 5 && t < |r.threads| && |r.cells| == |s.cells|
    ensures r.threads[t].pc == if ReadyWith(s, k) then Duplicate else if HasRoom(s) then Yes else Full
    ensures if r.threads[t].pc == Yes then
              && j < |s.cells| && !s.cells[j].occupied && r.cells == s.cells[j := r.cells[j]]
              && r.cells[j].occupied && r.cells[j].ready && r.cells[j].key == k && r.cells[j].value == v
            else r.cells == s.cells
  {
    var n := |s.cells|;
    var s0 := Next(s, Call(t, Insert(k, v)));
    NextInv(s, Call(t, Insert(k, v)));
    var x, s1, d := ProbeAlone(s0, t);
    j := 0;
    run, r := x, s1;
    if d < n {
      var y;
      j := At(k, d, n);
      if s.cells[j].occupied {
        y, r := Reaches(s1, t);
        assert Holds(s.cells[j], k);
      } else {
        y, r := ClaimAlone(s1, t, j);
        NowhereReady(s, k, d);
      }
      Both(s0, t, x, s1, y, r);
      run := x + y;
    } else {
      NowhereReady(s, k, d);
      forall i | 0 <= i < n
        ensures s.cells[i].occupied
      {
        var e := DepthOf(k, i, n);
      }
    }
  }

  // ---------------------------------------------------------------- from any point of a call

  /** Actions that thread `t` needs at most when it goes on alone. */
  function Remaining<V>(s: State<V>, t: nat): (n: int)
    requires t < |s.threads|
    ensures n <= 3 * |s.cells| + 5
  {
    var l := s.threads[t];
    var ahead := 3 * (|s.cells| - l.i) + 5;
    match l.pc
    case Occ => ahead
    case Ready => ahead - 1
    case Cmp => ahead - 2
    case Cas => ahead - 1
    case WriteKey => 3
    case WriteValue => 2
    case Publish => 1
    case Read => 1
    case _ => 0
  }

  /** A find waits only for a claimed cell that is not ready; an insert waits for no one. */
  ghost predicate NeedNotWait<V>(s: State<V>, t: nat)
    requires t < |s.threads|
  {
    s.threads[t].op.Find? ==> Tidy(s)
  }

  function Solo<V>(t: nat, k: nat): seq<Label<V>> {
    if k == 0 then [] else [Step(t)] + Solo(t, k - 1)
  }

  lemma SoloUnfold<V>(s: State<V>, t: nat, k: nat)
    requires |s.cells| > 0
    ensures |Next(s, Step(t)).cells| == |s.cells| && |Next(s, Step(t)).threads| == |s.threads|
    ensures Exec(s, Solo(t, k + 1)) == Exec(Next(s, Step(t)), Solo(t, k))
  {
    NextShape(s, Step(t));
    assert Solo<V>(t, k + 1)[0] == Step(t) && Solo<V>(t, k + 1)[1..] == Solo(t, k);
  }

  /** Thread `t` needs at most `k` more actions and waits for no one. */
  ghost predicate Needs<V>(s: State<V>, t: nat, k: int) {
    Inv(s) && t < |s.threads| && NeedNotWait(s, t) && Remaining(s, t) <= k
  }

  lemma OneLess<V>(s: State<V>, t: nat, k: nat)
    requires Needs(s, t, k)
    ensures !AtRest(s.threads[t].pc) ==> k > 0
    ensures k > 0 ==> Needs(Next(s, Step(t)), t, k - 1)
  {
    NextInv(s, Step(t));
    assert ThreadOk(s, t);
  }

  /** Obstruction freedom: from any point of an insert, whatever is claimed and not ready, its own actions are enough to
      return, at most 3 * Size + 5 of them; and likewise from any point of a find if every claimed cell is ready. */
  lemma {:induction false} FinishesAlone<V>(s: State<V>, t: nat, k: nat)
    requires Needs(s, t, k)
    ensures t < |Exec(s, Solo(t, k)).threads| && AtRest(Exec(s, Solo(t, k)).threads[t].pc)
    decreases k
  {
    OneLess(s, t, k);
    if k > 0 {
      SoloUnfold(s, t, k - 1);
      FinishesAlone(Next(s, Step(t)), t, k - 1);
    }
  }
}

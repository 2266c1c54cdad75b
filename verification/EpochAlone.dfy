/** What the calls of the reclaimer do when they run to their end: sections, advances and whole retires. */
module EpochAlone {
  import opened Epoch
  import opened EpochTheorems

  // ---------------------------------------------------------------- readers

  /** The label is an action of slot `i`. */
  predicate OfSlot(a: Label, i: nat) {
    match a
    case Register(j) => i == j
    case Unregister(j) => i == j
    case LoadEpoch(j) => i == j
    case Publish(j) => i == j
    case Leave(j) => i == j
    case _ => false
  }

  ghost predicate NoneOfSlot(run: seq<Label>, i: nat) {
    forall k :: 0 <= k < |run| ==> !OfSlot(run[k], i)
  }

  lemma {:induction false} SlotKept(s: State, run: seq<Label>, i: nat)
    requires |s.lists| == 3 && i < |s.slots| && NoneOfSlot(run, i)
    ensures i < |Exec(s, run).slots| && Exec(s, run).slots[i] == s.slots[i]
    decreases |run|
  {
    if run != [] {
      assert !OfSlot(run[0], i);
      NextShape(s, run[0]);
      SlotKept(Next(s, run[0]), run[1..], i);
    }
  }

  /** A section, whatever runs between its actions: it publishes the epoch it loaded, however stale, is inside from then
      on, and is outside again when it has left. */
  lemma {:induction false} SectionRoundTrip(s: State, i: nat, a: seq<Label>, b: seq<Label>)
    requires |s.lists| == 3 && i < |s.slots| && s.slots[i] == Slot(true, Out) && NoneOfSlot(a, i) && NoneOfSlot(b, i)
    ensures |Next(s, LoadEpoch(i)).lists| == 3
    ensures var s1 := Exec(Next(s, LoadEpoch(i)), a);
            && |Next(s1, Publish(i)).lists| == 3
            && var s2 := Exec(Next(s1, Publish(i)), b);
            && i < |s2.slots| && s2.slots[i] == Slot(true, In(s.g, s1.g, s1.time))
            && i < |Next(s2, Leave(i)).slots| && Next(s2, Leave(i)).slots[i] == s.slots[i]
  {
    NextShape(s, LoadEpoch(i));
    SlotKept(Next(s, LoadEpoch(i)), a, i);
    var s1 := Exec(Next(s, LoadEpoch(i)), a);
    NextShape(s1, Publish(i));
    SlotKept(Next(s1, Publish(i)), b, i);
  }

  /** A slot that is registered and unregistered again is free again. */
  lemma {:induction false} RegistrationRoundTrip(s: State, i: nat, run: seq<Label>)
    requires |s.lists| == 3 && i < |s.slots| && s.slots[i] == Slot(false, Out) && NoneOfSlot(run, i)
    ensures |Next(s, Register(i)).lists| == 3
    ensures var s1 := Exec(Next(s, Register(i)), run);
            && i < |s1.slots| && s1.slots[i] == Slot(true, Out)
            && i < |Next(s1, Unregister(i)).slots| && Next(s1, Unregister(i)).slots[i] == s.slots[i]
  {
    NextShape(s, Register(i));
    SlotKept(Next(s, Register(i)), run, i);
  }

  // ---------------------------------------------------------------- an advance

  /** A registered reader is inside a section of an epoch other than the current one. */
  ghost predicate Blocks(s: State, i: nat) {
    i < |s.slots| && s.slots[i].inUse && s.slots[i].reader.In? && s.slots[i].reader.e != s.g
  }

  ghost predicate BlockedFrom(s: State, i: nat) {
    exists j :: i <= j && Blocks(s, j)
  }

  lemma WorksUnfold(s: State, w: nat, k: nat)
    requires |s.lists| == 3
    ensures |Next(s, Work(w)).lists| == 3 && Exec(s, Works(w, k + 1)) == Exec(Next(s, Work(w)), Works(w, k))
  {
    NextShape(s, Work(w));
    assert Works(w, k + 1)[0] == Work(w) && Works(w, k + 1)[1..] == Works(w, k);
    ExecUnfold(s, Works(w, k + 1));
  }

  lemma {:induction false} WorksSplit(s: State, w: nat, j: nat, k: nat)
    requires |s.lists| == 3
    ensures Exec(s, Works(w, j + k)) == Exec(Exec(s, Works(w, j)), Works(w, k))
    decreases j
  {
    if j > 0 {
      WorksUnfold(s, w, j - 1 + k);
      WorksUnfold(s, w, j - 1);
      WorksSplit(Next(s, Work(w)), w, j - 1, k);
    }
  }

  /** Worker `w` is at `x` and `k` units of time have passed; all else is as it was. */
  function At(s: State, w: nat, x: Worker, k: nat): State
    requires w < |s.workers|
  {
    s.(workers := s.workers[w := x], time := s.time + k)
  }

  lemma AtAt(s: State, w: nat, x: Worker, y: Worker, j: nat, k: nat)
    requires w < |s.workers|
    ensures At(At(s, w, x, j), w, y, k) == At(s, w, y, j + k)
  {
  }

  /** Two stretches of work, one after the other. */
  lemma Chained(s: State, w: nat, j: nat, r: State, k: nat, q: State)
    requires |s.lists| == 3 && Exec(s, Works(w, j)) == r && Exec(r, Works(w, k)) == q
    ensures Exec(s, Works(w, j + k)) == q
  {
    WorksSplit(s, w, j, k);
  }

  /** A worker outside any call stays there. */
  lemma {:induction false} StaysIdle(s: State, w: nat, k: nat)
    requires |s.lists| == 3 && w < |s.workers| && s.workers[w].Idle?
    ensures Exec(s, Works(w, k)) == At(s, w, Idle, k)
    decreases k
  {
    if k > 0 {
      WorksUnfold(s, w, k - 1);
      StaysIdle(Next(s, Work(w)), w, k - 1);
    } else {
      assert s.workers[w := Idle] == s.workers;
    }
  }

  /** The rest of a scan gets through exactly if no remaining slot blocks. */
  lemma {:induction false} ScanAlone(s: State, w: nat, i: nat)
    requires |s.lists| == 3 && w < |s.workers| && i < |s.slots| && s.workers[w] == Scan(s.g, i)
    ensures Exec(s, Works(w, |s.slots| - i)) == At(s, w, if BlockedFrom(s, i) then Idle else Cas(s.g), |s.slots| - i)
    decreases |s.slots| - i
  {
    var n, s1 := |s.slots|, Next(s, Work(w));
    WorksUnfold(s, w, n - i - 1);
    if Blocks(s, i) {
      assert s1 == At(s, w, Idle, 1);
      StaysIdle(s1, w, n - i - 1);
    } else if i + 1 == n {
      assert s1 == At(s, w, Cas(s.g), 1);
      assert !BlockedFrom(s, i);
    } else {
      assert s1 == At(s, w, Scan(s.g, i + 1), 1);
      ScanAlone(s1, w, i + 1);
      SameBlocks(s, s1, i);
    }
  }

  lemma SameBlocks(s: State, r: State, i: nat)
    requires r.slots == s.slots && r.g == s.g && !Blocks(s, i)
    ensures BlockedFrom(r, i + 1) == BlockedFrom(s, i)
  {
    if BlockedFrom(s, i) {
      var j :| i <= j && Blocks(s, j);
      assert Blocks(r, j);
    }
    if BlockedFrom(r, i + 1) {
      var j :| i + 1 <= j && Blocks(r, j);
      assert Blocks(s, j);
    }
  }

  /** Actions of a scan over `n` slots, and of `try_advance` up to its exchange. */
  function ScanSpan(n: nat): nat { if n == 0 then 1 else n }

  function Span(n: nat): nat { ScanSpan(n) + 2 }

  /** A whole scan. */
  lemma {:induction false} WholeScan(s: State, w: nat)
    requires |s.lists| == 3 && w < |s.workers| && s.workers[w] == Scan(s.g, 0)
    ensures var m := ScanSpan(|s.slots|);
            Exec(s, Works(w, m)) == At(s, w, if BlockedFrom(s, 0) then Idle else Cas(s.g), m)
  {
    if |s.slots| == 0 {
      WorksUnfold(s, w, 0);
      assert !BlockedFrom(s, 0);
    } else {
      ScanAlone(s, w, 0);
    }
  }

  /** The exchange, or the idle action of a worker that has returned. */
  lemma ExchangeAlone(s: State, w: nat, k: nat) returns (r: State)
    requires |s.lists| == 3 && w < |s.workers| && (s.workers[w].Idle? || s.workers[w] == Cas(s.g)) && k == 1
    ensures r == Exec(s, Works(w, k))
    ensures r == if s.workers[w].Idle? then At(s, w, Idle, 1) else At(s, w, Swap(s.g + 1), 1).(g := s.g + 1)
  {
    WorksUnfold(s, w, 0);
    r := Next(s, Work(w));
    if s.workers[w].Idle? { assert s.workers[w := Idle] == s.workers; }
  }

  /** An advance that runs alone moves the epoch on by one, and has its swap ahead, if and only if every registered
      reader inside a section is in the current epoch; otherwise it returns and changes nothing. */
  lemma {:induction false} AdvanceAlone(s: State, w: nat)
    requires |s.lists| == 3 && w < |s.workers| && s.workers[w] == Start
    ensures var k := Span(|s.slots|);
            Exec(s, Works(w, k)) == if BlockedFrom(s, 0) then At(s, w, Idle, k)
                                    else At(s, w, Swap(s.g + 1), k).(g := s.g + 1)
  {
    var m, one: nat := ScanSpan(|s.slots|) + 1, 1;
    var x := if BlockedFrom(s, 0) then Idle else Cas(s.g);
    var s2 := At(s, w, x, m);
    ScanFromStart(s, w);
    var r := ExchangeAlone(s2, w, one);
    AtAt(s, w, x, if BlockedFrom(s, 0) then Idle else Swap(s.g + 1), m, 1);
    Chained(s, w, m, s2, one, r);
  }

  /** The load of the epoch and the scan. */
  lemma {:induction false} ScanFromStart(s: State, w: nat)
    requires |s.lists| == 3 && w < |s.workers| && s.workers[w] == Start
    ensures var m := ScanSpan(|s.slots|);
            Exec(s, Works(w, m + 1)) == At(s, w, if BlockedFrom(s, 0) then Idle else Cas(s.g), m + 1)
  {
    var m, s1 := ScanSpan(|s.slots|), At(s, w, Scan(s.g, 0), 1);
    WorksUnfold(s, w, m);
    assert Next(s, Work(w)) == s1;
    SameReaders(s, s1);
    WholeScan(s1, w);
    AtAt(s, w, Scan(s.g, 0), if BlockedFrom(s, 0) then Idle else Cas(s.g), 1, m);
  }

  lemma SameReaders(s: State, r: State)
    requires r.slots == s.slots && r.g == s.g
    ensures BlockedFrom(r, 0) == BlockedFrom(s, 0)
  {
    if BlockedFrom(s, 0) {
      var j :| 0 <= j && Blocks(s, j);
      assert Blocks(r, j);
    }
    if BlockedFrom(r, 0) {
      var j :| 0 <= j && Blocks(r, j);
      assert Blocks(s, j);
    }
  }

  // ---------------------------------------------------------------- a whole retire

  /** The swap and the deletions that follow an advance, up to the return. */
  lemma {:induction false} ReclaimAlone(s: State, w: nat, j: nat)
    requires |s.lists| == 3 && w < |s.workers| && s.workers[w].Swap? && j == s.workers[w].n % 3
    ensures Exec(s, Works(w, |s.lists[j]| + 2)) ==
              At(s, w, Idle, |s.lists[j]| + 2).(lists := s.lists[j := []], deleted := s.deleted + s.lists[j])
  {
    var batch := s.lists[j];
    WorksUnfold(s, w, |batch| + 1);
    var s1 := Next(s, Work(w));
    assert s1 == At(s, w, Free(batch), 1).(lists := s.lists[j := []]);
    DeletesAlone(s1, w);
  }

  lemma {:induction false} DeletesAlone(s: State, w: nat)
    requires |s.lists| == 3 && w < |s.workers| && s.workers[w].Free?
    ensures var batch := s.workers[w].batch;
            Exec(s, Works(w, |batch| + 1)) == At(s, w, Idle, |batch| + 1).(deleted := s.deleted + batch)
    decreases |s.workers[w].batch|
  {
    var batch := s.workers[w].batch;
    WorksUnfold(s, w, |batch|);
    if batch != [] {
      var s1 := Next(s, Work(w));
      assert s1 == At(s, w, Free(batch[1..]), 1).(deleted := s.deleted + [batch[0]]);
      DeletesAlone(s1, w);
      assert s.deleted + [batch[0]] + batch[1..] == s.deleted + batch;
    } else {
      assert s.deleted + batch == s.deleted;
    }
  }

  /** After its append a `retire` that runs alone advances and reclaims, or stops at the reader that blocks it. */
  lemma {:induction false} AfterAppend(s: State, w: nat)
    requires |s.lists| == 3 && w < |s.workers| && s.workers[w] == Start
    ensures var j := (s.g + 1) % 3; var k := Span(|s.slots|) + |s.lists[j]| + 2;
            Exec(s, Works(w, k)) ==
              if BlockedFrom(s, 0) then At(s, w, Idle, k)
              else At(s, w, Idle, k).(g := s.g + 1, lists := s.lists[j := []], deleted := s.deleted + s.lists[j])
  {
    var j := (s.g + 1) % 3;
    var n, m := Span(|s.slots|), |s.lists[j]| + 2;
    AdvanceAlone(s, w);
    var s1 := if BlockedFrom(s, 0) then At(s, w, Idle, n) else At(s, w, Swap(s.g + 1), n).(g := s.g + 1);
    if BlockedFrom(s, 0) {
      StaysIdle(s1, w, m);
      AtAt(s, w, Idle, Idle, n, m);
    } else {
      ReclaimAlone(s1, w, j);
      AtAt(s, w, Swap(s.g + 1), Idle, n, m);
    }
    Chained(s, w, n, s1, m, Exec(s1, Works(w, m)));
  }

  /** Actions of a whole `retire` in state `s`, after its load of the epoch. */
  function RetireSpan(s: State): nat
    requires |s.lists| == 3
  {
    1 + Span(|s.slots|) + |s.lists[(s.g + 1) % 3]| + 2
  }

  /** Its load of the epoch and its append. */
  lemma AppendAlone(s: State, w: nat, ptr: nat) returns (rec: Rec, r: State)
    requires |s.lists| == 3 && w < |s.workers| && s.workers[w].Idle?
    ensures |Next(s, Retire(w, ptr)).lists| == 3 && r == Next(Next(s, Retire(w, ptr)), Work(w)) && rec.ptr == ptr
    ensures r == At(s, w, Start, 2).(lists := s.lists[s.g % 3 := s.lists[s.g % 3] + [rec]],
                                     appended := s.appended + [rec])
  {
    NextShape(s, Retire(w, ptr));
    var s1 := Next(s, Retire(w, ptr));
    r := Next(s1, Work(w));
    rec := r.lists[s.g % 3][|s.lists[s.g % 3]|];
  }

  /** A whole `retire` that runs alone: its pointer joins the list of the current epoch; and if and only if no
      registered reader is inside a section of another epoch, the epoch moves on by one and exactly the pointers on the
      list of the new epoch are deleted, in order. */
  lemma {:induction false} RetireAlone(s: State, w: nat, ptr: nat) returns (rec: Rec)
    requires |s.lists| == 3 && w < |s.workers| && s.workers[w].Idle?
    ensures |Next(s, Retire(w, ptr)).lists| == 3 && rec.ptr == ptr
    ensures var r := Exec(Next(s, Retire(w, ptr)), Works(w, RetireSpan(s)));
            var i, j := s.g % 3, (s.g + 1) % 3;
            var lists := s.lists[i := s.lists[i] + [rec]];
            && r.workers == s.workers && r.slots == s.slots
            && (if BlockedFrom(s, 0) then r.g == s.g && r.lists == lists && r.deleted == s.deleted
                else r.g == s.g + 1 && r.lists == lists[j := []] && r.deleted == s.deleted + s.lists[j])
  {
    var s2;
    rec, s2 := AppendAlone(s, w, ptr);
    WorksUnfold(Next(s, Retire(w, ptr)), w, RetireSpan(s) - 1);
    RetireEnds(s, s2, w, rec);
  }

  lemma {:induction false} OtherList(lists: seq<seq<Rec>>, g: nat, rec: Rec)
    requires |lists| == 3
    ensures lists[g % 3 := lists[g % 3] + [rec]][(g + 1) % 3] == lists[(g + 1) % 3]
  {
  }

  lemma {:induction false} RetireEnds(s: State, s2: State, w: nat, rec: Rec)
    requires |s.lists| == 3 && w < |s.workers| && s.workers[w].Idle?
    requires s2 == At(s, w, Start, 2).(lists := s.lists[s.g % 3 := s.lists[s.g % 3] + [rec]],
                                       appended := s.appended + [rec])
    ensures var r := Exec(s2, Works(w, RetireSpan(s) - 1));
            var i, j := s.g % 3, (s.g + 1) % 3;
            var lists := s.lists[i := s.lists[i] + [rec]];
            && r.workers == s.workers && r.slots == s.slots
            && (if BlockedFrom(s, 0) then r.g == s.g && r.lists == lists && r.deleted == s.deleted
                else r.g == s.g + 1 && r.lists == lists[j := []] && r.deleted == s.deleted + s.lists[j])
  {
    SameReaders(s, s2);
    OtherList(s.lists, s.g, rec);
    AfterAppend(s2, w);
    assert s2.workers[w := Idle] == s.workers;
  }

  // ---------------------------------------------------------------- from any point of a retire

  /** All pointers waiting on the lists. */
  function Total(s: State): nat
    requires |s.lists| == 3
  {
    |s.lists[0]| + |s.lists[1]| + |s.lists[2]|
  }

  /** Actions that worker `w` needs at most when it goes on alone. */
  function Remaining(s: State, w: nat): nat
    requires |s.lists| == 3 && w < |s.workers|
  {
    var n, m := |s.slots|, Total(s);
    match s.workers[w]
    case Idle => 0
    case Append(_) => n + m + 8
    case Start => n + m + 6
    case Scan(_, i) => (if i < n then n - i else 0) + m + 4
    case Cas(_) => m + 3
    case Swap(_) => m + 2
    case Free(batch) => |batch| + 1
  }

  lemma OneLess(s: State, w: nat)
    requires |s.lists| == 3 && w < |s.workers| && !s.workers[w].Idle?
    ensures var r := Next(s, Work(w));
            |r.lists| == 3 && w < |r.workers| && Remaining(r, w) < Remaining(s, w)
  {
    NextShape(s, Work(w));
  }

  /** Obstruction freedom: from any point of a `retire`, whatever the readers and the other workers have done, its own
      actions are enough to return. */
  lemma {:induction false} FinishesAlone(s: State, w: nat, k: nat)
    requires |s.lists| == 3 && w < |s.workers| && Remaining(s, w) <= k
    ensures var r := Exec(s, Works(w, k)); w < |r.workers| && r.workers[w].Idle?
    decreases k
  {
    if k > 0 {
      WorksUnfold(s, w, k - 1);
      NextShape(s, Work(w));
      if !s.workers[w].Idle? { OneLess(s, w); }
      FinishesAlone(Next(s, Work(w)), w, k - 1);
    }
  }
}

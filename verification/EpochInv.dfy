/** Every action of the reclaimer keeps its invariant. */
module EpochInv {
  import opened Epoch

  /** A reader of slot `i` moves to `x`. */
  ghost predicate Move(s: State, i: nat, x: Slot) {
    && i < |s.slots|
    && (match x.reader
        case Out => true
        case Loaded(e) => e == s.g && x.inUse
        case In(e, pub, at) => s.slots[i].reader == Loaded(e) && pub == s.g && at == s.time && x.inUse)
  }

  function Moved(s: State, i: nat, x: Slot): State
    requires i < |s.slots|
  {
    s.(slots := s.slots[i := x], time := s.time + 1)
  }

  lemma MoveRec(s: State, i: nat, x: Slot, rec: Rec)
    requires Move(s, i, x) && rec.load < s.time
    ensures RecOk(s, rec) ==> RecOk(Moved(s, i, x), rec)
    ensures Ahead(s, rec) ==> Ahead(Moved(s, i, x), rec)
    ensures Unguarded(s, rec) ==> Unguarded(Moved(s, i, x), rec)
  {
  }

  /** Reader actions. Publishing shows every scan that has gone by an epoch at least as new. */
  lemma MoveInv(s: State, i: nat, x: Slot)
    requires Inv(s) && Move(s, i, x)
    ensures Inv(Moved(s, i, x))
  {
    var s' := Moved(s, i, x);
    assert ReaderOk(s, i);
    forall u | 0 <= u < |s.slots| ensures ReaderOk(s', u) { assert ReaderOk(s, u); }
    forall w, u | 0 <= w < |s.workers| && 0 <= u < |s.slots| ensures ScanOk(s', w, u) {
      assert ScanOk(s, w, u) && WorkerOk(s, w);
    }
    forall w | 0 <= w < |s.workers| ensures WorkerOk(s', w) {
      assert WorkerOk(s, w);
      if s.workers[w].Append? { MoveRec(s, i, x, s.workers[w].rec); }
    }
    forall j, k | 0 <= j < 3 && 0 <= k < |s.lists[j]|
      ensures RecOk(s', s.lists[j][k]) && Ahead(s', s.lists[j][k]) && s.lists[j][k].r % 3 == j
    {
      MoveRec(s, i, x, s.lists[j][k]);
    }
    forall w, k | 0 <= w < |s.workers| && s.workers[w].Free? && 0 <= k < |s.workers[w].batch|
      ensures Unguarded(s', s.workers[w].batch[k]) && s.workers[w].batch[k].load < s'.time
    {
      MoveRec(s, i, x, s.workers[w].batch[k]);
    }
    forall k | 0 <= k < |s.deleted|
      ensures Unguarded(s', s.deleted[k]) && s.deleted[k].load < s'.time
    {
      MoveRec(s, i, x, s.deleted[k]);
    }
  }

  /** The slots stay as they are and the epoch and clock do not go back. */
  ghost predicate Later(s: State, s': State) {
    s'.slots == s.slots && s.g <= s'.g && s.time <= s'.time
  }

  lemma LaterRec(s: State, s': State, rec: Rec)
    requires Later(s, s')
    ensures RecOk(s, rec) ==> RecOk(s', rec)
    ensures Unguarded(s, rec) ==> Unguarded(s', rec)
  {
  }

  /** Worker `w` becomes `x`; any swap it announces is ahead of every record so far. */
  lemma AheadKept(s: State, s': State, w: nat, x: Worker, rec: Rec)
    requires w < |s.workers| && s'.workers == s.workers[w := x] && Ahead(s, rec)
    requires x.Swap? ==> rec.r < x.n
    ensures Ahead(s', rec)
  {
  }

  /** Worker actions, seen from everything but the worker: what is needed of the new lists and
      the new worker. */
  lemma WorkInv(s: State, s': State, w: nat, x: Worker)
    requires Inv(s) && w < |s.workers| && s'.workers == s.workers[w := x] && Later(s, s') && |s'.lists| == 3
    requires x.Swap? ==> x.n == s'.g > s.g
    requires WorkerOk(s', w) && Readers(s')
    requires forall i {:trigger s.slots[i]} ::
               0 <= i < |s.slots| && Passed(x, i) && s.slots[i].reader.In? ==> x.cur <= s.slots[i].reader.pub
    requires Listed(s')
    requires s'.deleted == s.deleted
    requires x.Free? ==> forall k :: 0 <= k < |x.batch| ==> Unguarded(s', x.batch[k]) && x.batch[k].load < s'.time
    ensures Inv(s')
  {
    forall u | 0 <= u < |s.workers| && u != w ensures WorkerOk(s', u) {
      assert WorkerOk(s, u);
      if s.workers[u].Append? {
        LaterRec(s, s', s.workers[u].rec);
        AheadKept(s, s', w, x, s.workers[u].rec);
      }
    }
    forall u, i | 0 <= u < |s.workers| && 0 <= i < |s.slots| ensures ScanOk(s', u, i) {
      assert ScanOk(s, u, i);
      assert s.slots[i] == s'.slots[i];
    }
    forall u, k | 0 <= u < |s.workers| && s'.workers[u].Free? && 0 <= k < |s'.workers[u].batch|
      ensures Unguarded(s', s'.workers[u].batch[k]) && s'.workers[u].batch[k].load < s'.time
    {
      if u != w { LaterRec(s, s', s.workers[u].batch[k]); }
    }
    forall k | 0 <= k < |s.deleted|
      ensures Unguarded(s', s.deleted[k]) && s.deleted[k].load < s'.time
    {
      LaterRec(s, s', s.deleted[k]);
    }
  }

  /** The lists of a state that changed only in worker `w`. */
  lemma ListsKept(s: State, s': State, w: nat, x: Worker)
    requires Inv(s) && w < |s.workers| && s'.workers == s.workers[w := x] && Later(s, s') && s'.lists == s.lists
    requires x.Swap? ==> x.n > s.g
    ensures Listed(s')
  {
    forall j, k | 0 <= j < 3 && 0 <= k < |s'.lists[j]|
      ensures RecOk(s', s'.lists[j][k]) && Ahead(s', s'.lists[j][k]) && s'.lists[j][k].r % 3 == j
    {
      var rec := s.lists[j][k];
      LaterRec(s, s', rec);
      AheadKept(s, s', w, x, rec);
    }
  }

  lemma ReadersKept(s: State, s': State)
    requires Inv(s) && Later(s, s')
    requires s'.g == s.g || (s'.g == s.g + 1 && forall i {:trigger s.slots[i]} ::
               0 <= i < |s.slots| && s.slots[i].reader.In? ==> s.g <= s.slots[i].reader.pub)
    ensures Readers(s')
  {
    forall i | 0 <= i < |s.slots| ensures ReaderOk(s', i) { assert ReaderOk(s, i); }
  }

  /** Workers that are neither scanning nor swapping nor appending. */
  lemma PlainWork(s: State, w: nat, x: Worker)
    requires Inv(s) && w < |s.workers| && (x.Idle? || x.Start? || x == Scan(s.g, 0))
    ensures Inv(SetWorker(s, w, x).(time := s.time + 1))
  {
    var s' := SetWorker(s, w, x).(time := s.time + 1);
    ReadersKept(s, s');
    ListsKept(s, s', w, x);
    WorkInv(s, s', w, x);
  }

  /** A scan goes past a slot only if the reader there is outside or has published the same epoch. */
  lemma ScanWork(s: State, w: nat)
    requires Inv(s) && w < |s.workers| && s.workers[w].Scan?
    ensures Inv(Next(s, Work(w)))
  {
    var cur, i := s.workers[w].cur, s.workers[w].i;
    var x := Look(s, cur, i);
    var s' := Next(s, Work(w));
    assert WorkerOk(s, w);
    ReadersKept(s, s');
    ListsKept(s, s', w, x);
    forall u | 0 <= u < |s.slots| && Passed(x, u) && s.slots[u].reader.In? ensures x.cur <= s.slots[u].reader.pub {
      assert ScanOk(s, w, u) && ReaderOk(s, u);
    }
    WorkInv(s, s', w, x);
  }

  /** The epoch advances only past readers that published the current epoch. */
  lemma CasWork(s: State, w: nat)
    requires Inv(s) && w < |s.workers| && s.workers[w].Cas?
    ensures Inv(Next(s, Work(w)))
  {
    if s.g == s.workers[w].cur {
      var x := Swap(s.g + 1);
      var s' := Next(s, Work(w));
      forall i | 0 <= i < |s.slots| && s.slots[i].reader.In? ensures s.g <= s.slots[i].reader.pub {
        assert ScanOk(s, w, i);
      }
      ReadersKept(s, s');
      ListsKept(s, s', w, x);
      WorkInv(s, s', w, x);
    } else {
      PlainWork(s, w, Idle);
    }
  }

  lemma RetireWork(s: State, w: nat, ptr: nat)
    requires Inv(s) && w < |s.workers|
    ensures Inv(SetWorker(s, w, Append(NewRec(s, ptr))).(time := s.time + 1))
  {
    var rec := NewRec(s, ptr);
    var s' := SetWorker(s, w, Append(rec)).(time := s.time + 1);
    ReadersKept(s, s');
    ListsKept(s, s', w, Append(rec));
    forall i | 0 <= i < |s.slots| && Guards(s.slots[i].reader, rec) ensures s.slots[i].reader.pub <= rec.r {
      assert ReaderOk(s, i);
    }
    WorkInv(s, s', w, Append(rec));
  }

  lemma AppendWork(s: State, w: nat)
    requires Inv(s) && w < |s.workers| && s.workers[w].Append?
    ensures Inv(Next(s, Work(w)))
  {
    var s' := Next(s, Work(w));
    var rec := s.workers[w].rec;
    var jj := rec.r % 3;
    var rec' := rec.(safe := rec.safe || !Pending(s, jj));
    assert WorkerOk(s, w);
    ReadersKept(s, s');
    assert RecOk(s', rec') && Ahead(s', rec') by {
      LaterRec(s, s', rec);
      forall u | 0 <= u < |s'.workers| && SwapsList(s'.workers[u], jj) && rec'.safe
        ensures rec.r < s'.workers[u].n
      {
        assert u != w && SwapsList(s.workers[u], jj);
      }
    }
    forall j, k | 0 <= j < 3 && 0 <= k < |s'.lists[j]|
      ensures RecOk(s', s'.lists[j][k]) && Ahead(s', s'.lists[j][k]) && s'.lists[j][k].r % 3 == j
    {
      if k < |s.lists[j]| {
        assert s'.lists[j][k] == s.lists[j][k];
        LaterRec(s, s', s.lists[j][k]);
        AheadKept(s, s', w, Start, s.lists[j][k]);
      }
    }
    WorkInv(s, s', w, Start);
  }

  lemma SwapWork(s: State, w: nat)
    requires Inv(s) && w < |s.workers| && s.workers[w].Swap?
    ensures Inv(Next(s, Work(w)))
  {
    var s' := Next(s, Work(w));
    var jj := s.workers[w].n % 3;
    var x := Free(s.lists[jj]);
    ReadersKept(s, s');
    forall j, k | 0 <= j < 3 && 0 <= k < |s'.lists[j]|
      ensures RecOk(s', s'.lists[j][k]) && Ahead(s', s'.lists[j][k]) && s'.lists[j][k].r % 3 == j
    {
      assert j != jj && s'.lists[j][k] == s.lists[j][k];
      LaterRec(s, s', s.lists[j][k]);
      AheadKept(s, s', w, x, s.lists[j][k]);
    }
    forall k | 0 <= k < |x.batch|
      ensures Unguarded(s', x.batch[k]) && x.batch[k].load < s'.time
    {
      SwapUnguarded(s, w, x.batch[k]);
      LaterRec(s, s', x.batch[k]);
    }
    WorkInv(s, s', w, x);
  }

  lemma FreeWork(s: State, w: nat)
    requires Inv(s) && w < |s.workers| && s.workers[w].Free?
    ensures Inv(Next(s, Work(w)))
  {
    var batch := s.workers[w].batch;
    if batch == [] {
      PlainWork(s, w, Idle);
    } else {
      var x := Free(batch[1..]);
      var s1 := SetWorker(s, w, x).(time := s.time + 1);
      ReadersKept(s, s1);
      ListsKept(s, s1, w, x);
      forall k | 0 <= k < |x.batch|
        ensures Unguarded(s1, x.batch[k]) && x.batch[k].load < s1.time
      {
        LaterRec(s, s1, batch[k + 1]);
        assert s.workers[w].batch[k + 1] == x.batch[k];
      }
      WorkInv(s, s1, w, x);
      LaterRec(s, s1, s.workers[w].batch[0]);
      DeleteInv(s1, batch[0]);
    }
  }

  lemma DeleteInv(s: State, rec: Rec)
    requires Inv(s) && Unguarded(s, rec) && rec.load < s.time
    ensures Inv(s.(deleted := s.deleted + [rec]))
  {
    var s' := s.(deleted := s.deleted + [rec]);
    assert Later(s, s');
    forall w | 0 <= w < |s.workers| ensures WorkerOk(s', w) { assert WorkerOk(s, w); }
    forall i | 0 <= i < |s.slots| ensures ReaderOk(s', i) { assert ReaderOk(s, i); }
    forall w, i | 0 <= w < |s.workers| && 0 <= i < |s.slots| ensures ScanOk(s', w, i) { assert ScanOk(s, w, i); }
    forall k | 0 <= k < |s'.deleted|
      ensures Unguarded(s', s'.deleted[k]) && s'.deleted[k].load < s'.time
    {
      LaterRec(s, s', s'.deleted[k]);
      if k < |s.deleted| { assert s'.deleted[k] == s.deleted[k]; }
    }
  }

  lemma Tick(s: State)
    requires Inv(s)
    ensures Inv(s.(time := s.time + 1))
  {
    var s' := s.(time := s.time + 1);
    assert Later(s, s');
    forall w | 0 <= w < |s.workers| ensures WorkerOk(s', w) { assert WorkerOk(s, w); }
    forall i | 0 <= i < |s.slots| ensures ReaderOk(s', i) { assert ReaderOk(s, i); }
    forall w, i | 0 <= w < |s.workers| && 0 <= i < |s.slots| ensures ScanOk(s', w, i) { assert ScanOk(s, w, i); }
  }

  /** Every scheduler choice keeps the invariant. */
  lemma NextInv(s: State, a: Label)
    requires Inv(s)
    ensures Inv(Next(s, a))
  {
    if Do(s, a) == s {
      Tick(s);
    } else {
      match a
      case Register(i) => MoveInv(s, i, Slot(true, Out));
      case Unregister(i) => MoveInv(s, i, Slot(false, Out));
      case LoadEpoch(i) => MoveInv(s, i, Slot(true, Loaded(s.g)));
      case Publish(i) =>
        assert ReaderOk(s, i);
        MoveInv(s, i, s.slots[i].(reader := In(s.slots[i].reader.e, s.g, s.time)));
      case Leave(i) => MoveInv(s, i, s.slots[i].(reader := Out));
      case Retire(w, ptr) => RetireWork(s, w, ptr);
      case Work(w) =>
        match s.workers[w]
        case Idle =>
        case Append(_) => AppendWork(s, w);
        case Start => PlainWork(s, w, Scan(s.g, 0));
        case Scan(_, _) => ScanWork(s, w);
        case Cas(_) => CasWork(s, w);
        case Swap(_) => SwapWork(s, w);
        case Free(_) => FreeWork(s, w);
    }
  }

  lemma {:induction false} ExecInv(s: State, run: seq<Label>)
    requires Inv(s)
    ensures Inv(Exec(s, run))
    decreases |run|
  {
    if run != [] {
      NextInv(s, run[0]);
      ExecInv(Next(s, run[0]), run[1..]);
    }
  }
}

/** Epoch-based reclamation (include/lockless/epoch_reclaimer.hpp) as a state machine: readers with
    their slots, and any number of workers each executing `retire` one shared access at a time. */
module Epoch {

  /** A retired pointer. `r` is the epoch its `retire` read and `load` the time of that read. `safe` is
      history: no list swap was pending on list `r % 3` at that read, or none at the append. */
  datatype Rec = Rec(ptr: nat, r: nat, load: nat, safe: bool)

  /** A reader: outside, holding a loaded epoch it has not yet published, or inside a section with
      `local_epoch == e`. `pub` is the global epoch and `at` the time of the publication. */
  datatype Reader = Out | Loaded(e: nat) | In(e: nat, pub: nat, at: nat)

  datatype Slot = Slot(inUse: bool, reader: Reader)

  /** A call of `retire`: about to append, to load the epoch in `try_advance`, to look at slot `i`, to
      exchange the epoch, to swap out list `n % 3`, to delete what was swapped out. */
  datatype Worker =
    | Idle
    | Append(rec: Rec)
    | Start
    | Scan(cur: nat, i: nat)
    | Cas(cur: nat)
    | Swap(n: nat)
    | Free(batch: seq<Rec>)

  datatype State = State(
    g: nat, slots: seq<Slot>, lists: seq<seq<Rec>>, workers: seq<Worker>,
    deleted: seq<Rec>, appended: seq<Rec>, time: nat)

  datatype Label =
    | Register(i: nat) | Unregister(i: nat) | LoadEpoch(i: nat) | Publish(i: nat) | Leave(i: nat)
    | Retire(w: nat, ptr: nat) | Work(w: nat)

  /** A worker has advanced the epoch and not yet swapped out list `j`. */
  predicate Pending(s: State, j: nat) {
    exists w :: 0 <= w < |s.workers| && SwapsList(s.workers[w], j)
  }

  predicate SwapsList(x: Worker, j: nat) {
    x.Swap? && x.n % 3 == j
  }

  function SetReader(s: State, i: nat, x: Reader): State
    requires i < |s.slots|
  {
    s.(slots := s.slots[i := s.slots[i].(reader := x)])
  }

  function SetWorker(s: State, w: nat, x: Worker): State
    requires w < |s.workers|
  {
    s.(workers := s.workers[w := x])
  }

  /** The scan of slot `i`: a registered reader inside a section of another epoch stops it. */
  function Look(s: State, cur: nat, i: nat): Worker {
    if i >= |s.slots| then Cas(cur)
    else if s.slots[i].inUse && s.slots[i].reader.In? && s.slots[i].reader.e != cur then Idle
    else if i + 1 == |s.slots| then Cas(cur) else Scan(cur, i + 1)
  }

  /** One action of worker `w`. */
  function Work1(s: State, w: nat): State
    requires |s.lists| == 3 && w < |s.workers|
  {
    match s.workers[w]
    case Idle => s
    case Append(rec) =>
      var j := rec.r % 3;
      var rec' := rec.(safe := rec.safe || !Pending(s, j));
      SetWorker(s, w, Start).(lists := s.lists[j := s.lists[j] + [rec']], appended := s.appended + [rec'])
    case Start => SetWorker(s, w, Scan(s.g, 0))
    case Scan(cur, i) => SetWorker(s, w, Look(s, cur, i))
    case Cas(cur) => if s.g == cur then SetWorker(s, w, Swap(cur + 1)).(g := cur + 1) else SetWorker(s, w, Idle)
    case Swap(n) => SetWorker(s, w, Free(s.lists[n % 3])).(lists := s.lists[n % 3 := []])
    case Free(batch) =>
      if batch == [] then SetWorker(s, w, Idle)
      else SetWorker(s, w, Free(batch[1..])).(deleted := s.deleted + [batch[0]])
  }

  /** The node a `retire` of `ptr` starting in state `s` would record. */
  function NewRec(s: State, ptr: nat): Rec { Rec(ptr, s.g, s.time, !Pending(s, s.g % 3)) }

  /** One scheduler choice, before the clock ticks; choices that are not enabled change nothing.
      Registration is serialised, and a thread stays registered and does not nest sections. */
  function Do(s: State, a: Label): State
    requires |s.lists| == 3
  {
    match a
    case Register(i) =>
      if i < |s.slots| && !s.slots[i].inUse then s.(slots := s.slots[i := Slot(true, Out)]) else s
    case Unregister(i) =>
      if i < |s.slots| && s.slots[i] == Slot(true, Out) then s.(slots := s.slots[i := Slot(false, Out)]) else s
    case LoadEpoch(i) =>
      if i < |s.slots| && s.slots[i] == Slot(true, Out) then SetReader(s, i, Loaded(s.g)) else s
    case Publish(i) =>
      if i < |s.slots| && s.slots[i].reader.Loaded? then SetReader(s, i, In(s.slots[i].reader.e, s.g, s.time)) else s
    case Leave(i) =>
      if i < |s.slots| && s.slots[i].reader.In? then SetReader(s, i, Out) else s
    case Retire(w, ptr) =>
      if w < |s.workers| && s.workers[w].Idle? then SetWorker(s, w, Append(NewRec(s, ptr))) else s
    case Work(w) =>
      if w < |s.workers| then Work1(s, w) else s
  }

  function Next(s: State, a: Label): State
    requires |s.lists| == 3
  {
    Do(s, a).(time := s.time + 1)
  }

  lemma NextShape(s: State, a: Label)
    requires |s.lists| == 3
    ensures |Next(s, a).lists| == 3 && |Next(s, a).slots| == |s.slots| && |Next(s, a).workers| == |s.workers|
  {
  }

  function Exec(s: State, run: seq<Label>): (r: State)
    requires |s.lists| == 3
    ensures |r.lists| == 3
    decreases |run|
  {
    if run == [] then s else NextShape(s, run[0]); Exec(Next(s, run[0]), run[1..])
  }

  lemma {:induction false} ExecUnfold(s: State, run: seq<Label>)
    requires |s.lists| == 3 && run != []
    ensures |Next(s, run[0]).lists| == 3
    ensures Exec(s, run) == Exec(Next(s, run[0]), run[1..])
  {
    NextShape(s, run[0]);
  }

  lemma {:induction false} ExecSplit(s: State, a: seq<Label>, b: seq<Label>)
    requires |s.lists| == 3
    ensures Exec(s, a + b) == Exec(Exec(s, a), b)
    decreases |a|
  {
    if a == [] {
      assert a + b == b;
    } else {
      assert (a + b)[0] == a[0] && (a + b)[1..] == a[1..] + b;
      ExecUnfold(s, a);
      ExecUnfold(s, a + b);
      ExecSplit(Next(s, a[0]), a[1..], b);
    }
  }

  predicate Init(s: State) {
    && s.g == 0 && s.lists == [[], [], []] && s.deleted == [] && s.appended == []
    && (forall i :: 0 <= i < |s.slots| ==> s.slots[i] == Slot(false, Out))
    && forall w :: 0 <= w < |s.workers| ==> s.workers[w] == Idle
  }

  // ---------------------------------------------------------------- invariant

  /** A reader has published `pub` or an older epoch, and the epoch has moved on at most once since. */
  ghost predicate ReaderOk(s: State, i: nat)
    requires i < |s.slots|
  {
    match s.slots[i].reader
    case Out => true
    case Loaded(e) => e <= s.g && s.slots[i].inUse
    case In(e, pub, at) => e <= pub <= s.g <= pub + 1 && at < s.time && s.slots[i].inUse
  }

  /** A worker's scan has gone past slot `i`. */
  predicate Passed(x: Worker, i: nat) {
    x.Cas? || (x.Scan? && i < x.i)
  }

  /** A worker that got past a reader read an epoch no newer than that reader's publication. */
  ghost predicate ScanOk(s: State, w: nat, i: nat)
    requires w < |s.workers| && i < |s.slots|
  {
    Passed(s.workers[w], i) && s.slots[i].reader.In? ==> s.workers[w].cur <= s.slots[i].reader.pub
  }

  ghost predicate WorkerOk(s: State, w: nat)
    requires w < |s.workers|
  {
    match s.workers[w]
    case Scan(cur, i) => cur <= s.g
    case Cas(cur) => cur <= s.g
    case Swap(n) => n <= s.g
    case Append(rec) => RecOk(s, rec) && Ahead(s, rec)
    case _ => true
  }

  /** A record's epoch is no older than the publication of any reader that preceded its read. */
  ghost predicate RecOk(s: State, rec: Rec) {
    && rec.r <= s.g && rec.load < s.time
    && forall i {:trigger s.slots[i]} :: 0 <= i < |s.slots| && Guards(s.slots[i].reader, rec) ==>
         s.slots[i].reader.pub <= rec.r
  }

  /** The reader is inside a section that was published before the record's `retire` read the epoch. */
  predicate Guards(x: Reader, rec: Rec) {
    x.In? && x.at < rec.load
  }

  /** No pending swap of the record's list belongs to an advance at or before its epoch. */
  ghost predicate Ahead(s: State, rec: Rec) {
    rec.safe ==> forall w {:trigger s.workers[w]} ::
      0 <= w < |s.workers| && SwapsList(s.workers[w], rec.r % 3) ==> rec.r < s.workers[w].n
  }

  /** No reader inside a section guards the record. */
  ghost predicate Unguarded(s: State, rec: Rec) {
    rec.safe ==> forall i {:trigger s.slots[i]} :: 0 <= i < |s.slots| ==> !Guards(s.slots[i].reader, rec)
  }

  ghost predicate Readers(s: State) {
    forall i {:trigger s.slots[i]} :: 0 <= i < |s.slots| ==> ReaderOk(s, i)
  }

  ghost predicate Scans(s: State) {
    forall w, i {:trigger s.workers[w], s.slots[i]} :: 0 <= w < |s.workers| && 0 <= i < |s.slots| ==> ScanOk(s, w, i)
  }

  ghost predicate Workers(s: State) {
    forall w {:trigger s.workers[w]} :: 0 <= w < |s.workers| ==> WorkerOk(s, w)
  }

  ghost predicate Listed(s: State)
    requires |s.lists| == 3
  {
    forall j, k {:trigger s.lists[j][k]} :: 0 <= j < 3 && 0 <= k < |s.lists[j]| ==>
      RecOk(s, s.lists[j][k]) && Ahead(s, s.lists[j][k]) && s.lists[j][k].r % 3 == j
  }

  /** Everything swapped out or deleted is unguarded. */
  ghost predicate Freed(s: State) {
    && (forall w, k {:trigger s.workers[w].batch[k]} ::
          0 <= w < |s.workers| && s.workers[w].Free? && 0 <= k < |s.workers[w].batch| ==>
          Unguarded(s, s.workers[w].batch[k]) && s.workers[w].batch[k].load < s.time)
    && (forall k {:trigger s.deleted[k]} :: 0 <= k < |s.deleted| ==>
          Unguarded(s, s.deleted[k]) && s.deleted[k].load < s.time)
  }

  ghost predicate Inv(s: State) {
    |s.lists| == 3 && Readers(s) && Scans(s) && Workers(s) && Listed(s) && Freed(s)
  }

  lemma InitInv(s: State)
    requires Init(s)
    ensures Inv(s)
  {
    forall w | 0 <= w < |s.workers| ensures WorkerOk(s, w) { assert s.workers[w] == Idle; }
    forall i | 0 <= i < |s.slots| ensures ReaderOk(s, i) { assert s.slots[i] == Slot(false, Out); }
    forall w, i | 0 <= w < |s.workers| && 0 <= i < |s.slots| ensures ScanOk(s, w, i) { assert s.workers[w] == Idle; }
    forall w | 0 <= w < |s.workers| ensures !s.workers[w].Free? { assert s.workers[w] == Idle; }
  }

  /** The swapped-out list holds no safe record that a reader still guards: an advance to `n` that
      shares the record's list and lies ahead of its epoch is at least three epochs ahead, while any
      guarding reader holds the epoch within one of its own publication. */
  lemma SwapUnguarded(s: State, w: nat, rec: Rec)
    requires Inv(s) && w < |s.workers| && s.workers[w].Swap? && rec in s.lists[s.workers[w].n % 3]
    ensures Unguarded(s, rec) && rec.load < s.time
  {
    var n := s.workers[w].n;
    assert WorkerOk(s, w);
    var k :| 0 <= k < |s.lists[n % 3]| && s.lists[n % 3][k] == rec;
    assert RecOk(s, rec) && Ahead(s, rec) && rec.r % 3 == n % 3;
    if rec.safe {
      forall i | 0 <= i < |s.slots|
        ensures !Guards(s.slots[i].reader, rec)
      {
        assert ReaderOk(s, i);
      }
    }
  }
}

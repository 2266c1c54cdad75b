/** What epoch-based reclamation promises, and exactly when it keeps the promise. */
module EpochTheorems {
  import opened Epoch
  import opened EpochInv

  /** Slot `i` is still in the section published at time `at`. */
  ghost predicate Inside(s: State, i: nat, at: nat) {
    i < |s.slots| && s.slots[i].reader.In? && s.slots[i].reader.at == at
  }

  // ---------------------------------------------------------------- epoch lag

  /** A section keeps its record while it lasts. */
  lemma {:induction false} SectionKept(s: State, run: seq<Label>, i: nat)
    requires Inv(s) && i < |s.slots| && s.slots[i].reader.In?
    requires forall k :: 0 <= k < |run| ==> run[k] != Leave(i)
    ensures var r := Exec(s, run); i < |r.slots| && r.slots[i] == s.slots[i]
    decreases |run|
  {
    if run != [] {
      assert ReaderOk(s, i);
      assert run[0] != Leave(i);
      NextInv(s, run[0]);
      NextShape(s, run[0]);
      assert Next(s, run[0]).slots[i] == s.slots[i];
      SectionKept(Next(s, run[0]), run[1..], i);
    }
  }

  /** While a section lasts the epoch is within one of the epoch at its publication. */
  lemma LagNow(s: State, i: nat)
    requires Inv(s) && i < |s.slots| && s.slots[i].reader.In?
    ensures s.slots[i].reader.pub <= s.g <= s.slots[i].reader.pub + 1
  {
    assert ReaderOk(s, i);
  }

  /** Epoch lag bound: if a section is published when the global epoch is `s.g`, the epoch never exceeds
      `s.g + 1` until that reader leaves, whatever else is scanned and exchanged meanwhile. */
  lemma {:induction false} EpochLag(s: State, run: seq<Label>, i: nat)
    requires Inv(s) && i < |s.slots| && s.slots[i].reader.Loaded?
    requires forall k :: 0 <= k < |run| ==> run[k] != Leave(i)
    ensures |Next(s, Publish(i)).lists| == 3
    ensures s.g <= Exec(Next(s, Publish(i)), run).g <= s.g + 1
  {
    NextShape(s, Publish(i));
    NextInv(s, Publish(i));
    var s1 := Next(s, Publish(i));
    SectionKept(s1, run, i);
    ExecInv(s1, run);
    LagNow(Exec(s1, run), i);
  }

  // ---------------------------------------------------------------- safe reclamation

  /** The record is out of the lists: swapped out, or already deleted. */
  ghost predicate Released(s: State, rec: Rec) {
    || rec in s.deleted
    || exists w :: 0 <= w < |s.workers| && s.workers[w].Free? && rec in s.workers[w].batch
  }

  /** A safe record is never released while a section that preceded its `retire` lasts. */
  lemma SafeWhileInside(s: State, rec: Rec, i: nat)
    requires Inv(s) && rec.safe && i < |s.slots| && Guards(s.slots[i].reader, rec)
    ensures !Released(s, rec)
  {
  }

  /** Main theorem: if no swap of the current list is pending when `retire` reads the epoch, the pointer
      is not freed before any reader then inside a section leaves it: with stale epochs, delayed appends and
      interleaved scans, in every continuation. */
  lemma {:induction false} SafeReclamation(s: State, w: nat, ptr: nat, run: seq<Label>, i: nat, at: nat)
    requires Inv(s) && w < |s.workers| && s.workers[w].Idle? && !Pending(s, s.g % 3)
    requires Inside(s, i, at) && Inside(Exec(Next(s, Retire(w, ptr)), run), i, at)
    ensures NewRec(s, ptr).safe && !Released(Exec(Next(s, Retire(w, ptr)), run), NewRec(s, ptr))
  {
    var s1 := Next(s, Retire(w, ptr));
    NextInv(s, Retire(w, ptr));
    ExecInv(s1, run);
    assert ReaderOk(s, i);
    SafeWhileInside(Exec(s1, run), NewRec(s, ptr), i);
  }

  /** The run appends no record to a list while that list's swap is pending. */
  predicate NoAppendInWindow(s: State, run: seq<Label>)
    requires |s.lists| == 3
    decreases |run|
  {
    run != [] ==>
      && (run[0].Work? && run[0].w < |s.workers| && s.workers[run[0].w].Append?
          ==> !Pending(s, s.workers[run[0].w].rec.r % 3))
      && (NextShape(s, run[0]); NoAppendInWindow(Next(s, run[0]), run[1..]))
  }

  /** Every record that has been appended is safe. */
  ghost predicate AllSafe(s: State)
    requires |s.lists| == 3
  {
    && (forall j, k {:trigger s.lists[j][k]} :: 0 <= j < 3 && 0 <= k < |s.lists[j]| ==> s.lists[j][k].safe)
    && (forall w, k {:trigger s.workers[w].batch[k]} ::
          0 <= w < |s.workers| && s.workers[w].Free? && 0 <= k < |s.workers[w].batch| ==> s.workers[w].batch[k].safe)
    && (forall k {:trigger s.deleted[k]} :: 0 <= k < |s.deleted| ==> s.deleted[k].safe)
  }

  lemma {:induction false} WindowSafe(s: State, run: seq<Label>)
    requires Inv(s) && AllSafe(s) && NoAppendInWindow(s, run)
    ensures AllSafe(Exec(s, run))
    decreases |run|
  {
    if run != [] {
      NextInv(s, run[0]);
      WindowStep(s, run[0]);
      WindowSafe(Next(s, run[0]), run[1..]);
    }
  }

  lemma WindowStep(s: State, a: Label)
    requires Inv(s) && AllSafe(s)
    requires a.Work? && a.w < |s.workers| && s.workers[a.w].Append? ==> !Pending(s, s.workers[a.w].rec.r % 3)
    ensures AllSafe(Next(s, a))
  {
    if a.Work? && a.w < |s.workers| && s.workers[a.w].Swap? {
      var list := s.lists[s.workers[a.w].n % 3];
      assert forall k :: 0 <= k < |list| ==> list[k].safe;
    } else if a.Work? && a.w < |s.workers| && s.workers[a.w].Free? {
      var batch := s.workers[a.w].batch;
      assert forall k :: 0 <= k < |batch| ==> s.workers[a.w].batch[k].safe;
    }
  }

  /** The same promise under a hypothesis on whole runs: when no append falls between an advance's epoch
      exchange and its swap of that list, nothing freed is ever guarded by a reader inside a section. */
  lemma {:induction false} SafeUnderWindowHypothesis(s: State, run: seq<Label>, rec: Rec, i: nat)
    requires Init(s) && NoAppendInWindow(s, run) && i < |Exec(s, run).slots|
    requires Released(Exec(s, run), rec)
    ensures !Guards(Exec(s, run).slots[i].reader, rec)
  {
    InitInv(s);
    forall w | 0 <= w < |s.workers| ensures !s.workers[w].Free? { assert s.workers[w] == Idle; }
    WindowSafe(s, run);
    ExecInv(s, run);
    var r := Exec(s, run);
    if rec in r.deleted {
      var k :| 0 <= k < |r.deleted| && r.deleted[k] == rec;
      assert Unguarded(r, r.deleted[k]);
    } else {
      var w :| 0 <= w < |r.workers| && r.workers[w].Free? && rec in r.workers[w].batch;
      var k :| 0 <= k < |r.workers[w].batch| && r.workers[w].batch[k] == rec;
      assert Unguarded(r, r.workers[w].batch[k]);
    }
  }

  // ---------------------------------------------------------------- the window is real

  function Works(h: nat, k: nat): seq<Label> {
    if k == 0 then [] else [Work(h)] + Works(h, k - 1)
  }

  /** A worker deleting alone works through its batch in order. */
  lemma {:induction false} DeletesBatch(s: State, h: nat, k: nat)
    requires |s.lists| == 3 && h < |s.workers| && s.workers[h].Free? && k <= |s.workers[h].batch|
    ensures var r := Exec(s, Works(h, k)); r.slots == s.slots && r.deleted == s.deleted + s.workers[h].batch[..k]
    decreases k
  {
    if k > 0 {
      var s1 := Next(s, Work(h));
      var batch := s.workers[h].batch;
      assert s1.slots == s.slots && s1.deleted == s.deleted + [batch[0]] && s1.workers[h] == Free(batch[1..]);
      assert Works(h, k)[0] == Work(h) && Works(h, k)[1..] == Works(h, k - 1);
      ExecUnfold(s, Works(h, k));
      DeletesBatch(s1, h, k - 1);
      assert s.deleted + [batch[0]] + batch[1..][..k - 1] == s.deleted + batch[..k];
    }
  }

  /** The run that exploits a pending swap: retire, append, swap, delete. */
  function HazardRun(w: nat, h: nat, ptr: nat, k: nat): seq<Label> {
    [Retire(w, ptr), Work(w), Work(h)] + Works(h, k)
  }

  lemma {:induction false} ThreeSteps(s: State, run: seq<Label>)
    requires |s.lists| == 3 && |run| >= 3
    ensures |Next(s, run[0]).lists| == 3 && |Next(Next(s, run[0]), run[1]).lists| == 3
    ensures |Next(Next(Next(s, run[0]), run[1]), run[2]).lists| == 3
    ensures Exec(s, run) == Exec(Next(Next(Next(s, run[0]), run[1]), run[2]), run[3..])
  {
    NextShape(s, run[0]);
    var s1 := Next(s, run[0]);
    NextShape(s1, run[1]);
    NextShape(Next(s1, run[1]), run[2]);
    assert Exec(s, run) == Exec(s1, run[1..]);
    assert run[1..][1..] == run[2..] && run[2..][1..] == run[3..];
    assert Exec(s1, run[1..]) == Exec(Next(s1, run[1]), run[2..]);
  }

  /** Conversely, whenever a swap of the current list is pending and a reader is inside a section, some
      continuation frees the pointer under that reader. */
  lemma HazardFrees(s: State, w: nat, h: nat, ptr: nat, i: nat, at: nat)
    requires |s.lists| == 3 && w < |s.workers| && s.workers[w].Idle? && h < |s.workers|
    requires SwapsList(s.workers[h], s.g % 3) && Inside(s, i, at)
    ensures var r := Exec(s, HazardRun(w, h, ptr, |s.lists[s.g % 3]| + 1));
            NewRec(s, ptr) in r.deleted && Inside(r, i, at)
  {
    var rec, j := NewRec(s, ptr), s.g % 3;
    var k := |s.lists[j]| + 1;
    var s1 := Next(s, Retire(w, ptr));
    var s2 := Next(s1, Work(w));
    assert SwapsList(s1.workers[h], j) && Pending(s1, j) && Pending(s, j);
    assert s2.lists[j] == s.lists[j] + [rec];
    var s3 := Next(s2, Work(h));
    assert s3.workers[h] == Free(s.lists[j] + [rec]);
    DeletesBatch(s3, h, k);
    var run := HazardRun(w, h, ptr, k);
    assert run[3..] == Works(h, k);
    ThreeSteps(s, run);
    assert (s.lists[j] + [rec])[..k][k - 1] == rec;
  }

  /** Some continuation of the `retire` frees the pointer while the reader is still inside. */
  ghost predicate CanFreeUnder(s: State, w: nat, ptr: nat, i: nat, at: nat)
    requires |s.lists| == 3
  {
    exists run :: FreesUnder(s, w, ptr, i, at, run)
  }

  ghost predicate FreesUnder(s: State, w: nat, ptr: nat, i: nat, at: nat, run: seq<Label>)
    requires |s.lists| == 3
  {
    NextShape(s, Retire(w, ptr));
    var r := Exec(Next(s, Retire(w, ptr)), run);
    Inside(r, i, at) && Released(r, NewRec(s, ptr))
  }

  /** The exact condition: a `retire` that reads the epoch now can be freed under a reader now inside a
      section if and only if a swap of the current list is pending now. */
  lemma ReclamationExactly(s: State, w: nat, ptr: nat, i: nat, at: nat)
    requires Inv(s) && w < |s.workers| && s.workers[w].Idle? && Inside(s, i, at)
    ensures CanFreeUnder(s, w, ptr, i, at) <==> Pending(s, s.g % 3)
  {
    NextShape(s, Retire(w, ptr));
    if Pending(s, s.g % 3) {
      var h :| 0 <= h < |s.workers| && SwapsList(s.workers[h], s.g % 3);
      var k := |s.lists[s.g % 3]| + 1;
      HazardFrees(s, w, h, ptr, i, at);
      var run := HazardRun(w, h, ptr, k);
      assert run[0] == Retire(w, ptr);
      assert FreesUnder(s, w, ptr, i, at, run[1..]);
    } else {
      forall run
        ensures !FreesUnder(s, w, ptr, i, at, run)
      {
        if Inside(Exec(Next(s, Retire(w, ptr)), run), i, at) {
          SafeReclamation(s, w, ptr, run, i, at);
        }
      }
    }
  }
}

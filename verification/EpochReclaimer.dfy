/** The reclaimer as the code is written (include/lockless/epoch_reclaimer.hpp), for calls that do not
    overlap: slots and lists updated in place, the slot scans as loops. */
module EpochReclaimers {
  import opened RetireLists

  /** UINT64_MAX: not inside a section. */
  const INACTIVE: nat := 0xFFFF_FFFF_FFFF_FFFF

  /** A retired pointer and the epoch of its list. */
  datatype Retired = Retired(ptr: nat, epoch: nat)

  /** A list holds pointers of one epoch only, at most two epochs old. */
  ghost predicate ListOk(list: seq<Retired>, j: nat, epoch: nat) {
    forall k :: 0 <= k < |list| ==> list[k].epoch % 3 == j && list[k].epoch <= epoch <= list[k].epoch + 2
  }

  /** The lists after a `retire` in epoch `e`, with or without an advance. */
  function AfterRetire(lists: seq<seq<Retired>>, e: nat, ptr: nat, advanced: bool): seq<seq<Retired>>
    requires |lists| == 3
  {
    var appended := lists[e % 3 := lists[e % 3] + [Retired(ptr, e)]];
    if advanced then appended[(e + 1) % 3 := []] else appended
  }

  /** A `retire` loses nothing and deletes nothing twice: what is deleted plus what waits grows by its pointer. */
  lemma {:induction false} RetireConserves(
    lists: seq<seq<Retired>>, e: nat, ptr: nat, advanced: bool, deleted: seq<Retired>)
    requires |lists| == 3
    ensures var lists' := AfterRetire(lists, e, ptr, advanced);
            var deleted' := deleted + if advanced then lists[(e + 1) % 3] else [];
            |lists'| == 3
            && multiset(deleted') + Waiting(lists') == multiset(deleted) + Waiting(lists) + multiset{Retired(ptr, e)}
  {
    var appended, j := lists[e % 3 := lists[e % 3] + [Retired(ptr, e)]], (e + 1) % 3;
    WaitingAppend(lists, e % 3, Retired(ptr, e));
    if advanced {
      WaitingClear(appended, j);
      assert appended[j] == lists[j];
      Regroup(deleted, lists[j], Waiting(appended[j := []]));
    } else {
      assert deleted + [] == deleted;
    }
    assert multiset(deleted) + (Waiting(lists) + multiset{Retired(ptr, e)})
        == multiset(deleted) + Waiting(lists) + multiset{Retired(ptr, e)};
  }

  lemma {:induction false} Regroup(d: seq<Retired>, l: seq<Retired>, w: multiset<Retired>)
    ensures multiset(d + l) + w == multiset(d) + (w + multiset(l))
  {
  }

  class EpochReclaimer {
    const inUse: array<bool>
    const localEpoch: array<nat>
    var epoch: nat
    var lists: seq<seq<Retired>>
    var deleted: seq<Retired>

    ghost predicate Valid()
      reads this, inUse, localEpoch
    {
      && inUse.Length == localEpoch.Length && epoch < INACTIVE && |lists| == 3
      && (forall j :: 0 <= j < 3 ==> ListOk(lists[j], j, epoch))
      && (forall i :: 0 <= i < inUse.Length && localEpoch[i] != INACTIVE ==>
            inUse[i] && localEpoch[i] <= epoch <= localEpoch[i] + 1)
    }

    /** Slot `i` holds an epoch other than `e`, which stops an advance. */
    ghost predicate Blocks(i: nat, e: nat)
      requires inUse.Length == localEpoch.Length && i < inUse.Length
      reads inUse, localEpoch
    {
      inUse[i] && localEpoch[i] != INACTIVE && localEpoch[i] != e
    }

    constructor (threads: nat)
      ensures Valid() && epoch == 0 && lists == [[], [], []] && deleted == []
      ensures inUse.Length == threads && forall i :: 0 <= i < threads ==> !inUse[i]
      ensures fresh(inUse) && fresh(localEpoch)
    {
      inUse := new bool[threads](i => false);
      localEpoch := new nat[threads](i => INACTIVE);
      epoch, lists, deleted := 0, [[], [], []], [];
    }

    /** Claims the first free slot, or returns -1 if there is none. */
    method RegisterThread() returns (tid: int)
      requires Valid()
      modifies inUse, localEpoch
      ensures Valid()
      ensures tid == -1 <==> forall i :: 0 <= i < inUse.Length ==> old(inUse[i])
      ensures tid != -1 ==> 0 <= tid < inUse.Length && !old(inUse[tid]) && inUse[tid] && localEpoch[tid] == INACTIVE
      ensures tid != -1 ==> forall i :: 0 <= i < tid ==> old(inUse[i])
      ensures forall i :: 0 <= i < inUse.Length && i != tid ==>
                inUse[i] == old(inUse[i]) && localEpoch[i] == old(localEpoch[i])
    {
      for i := 0 to inUse.Length
        invariant forall k :: 0 <= k < i ==> inUse[k]
        invariant inUse[..] == old(inUse[..]) && localEpoch[..] == old(localEpoch[..])
      {
        if !inUse[i] {
          inUse[i] := true;
          localEpoch[i] := INACTIVE;
          return i;
        }
      }
      return -1;
    }

    method UnregisterThread(tid: int)
      requires Valid()
      modifies inUse, localEpoch
      ensures Valid()
      ensures 0 <= tid < inUse.Length ==> !inUse[tid] && localEpoch[tid] == INACTIVE
      ensures forall i :: 0 <= i < inUse.Length && i != tid ==>
                inUse[i] == old(inUse[i]) && localEpoch[i] == old(localEpoch[i])
    {
      if tid < 0 || tid >= inUse.Length { return; }
      localEpoch[tid] := INACTIVE;
      inUse[tid] := false;
    }

    method EnterCritical(tid: nat)
      requires Valid() && tid < inUse.Length && inUse[tid]
      modifies localEpoch
      ensures Valid() && localEpoch[..] == old(localEpoch[..])[tid := epoch]
    {
      localEpoch[tid] := epoch;
    }

    method LeaveCritical(tid: nat)
      requires Valid() && tid < inUse.Length
      modifies localEpoch
      ensures Valid() && localEpoch[..] == old(localEpoch[..])[tid := INACTIVE]
    {
      localEpoch[tid] := INACTIVE;
    }

    /** Advances the epoch exactly when no active reader holds another one, and then deletes exactly the
        pointers retired three epochs before the new one. */
    method TryAdvance() returns (advanced: bool)
      requires Valid() && epoch + 1 < INACTIVE
      modifies this`epoch, this`lists, this`deleted
      ensures Valid()
      ensures advanced <==> forall i :: 0 <= i < inUse.Length ==> !Blocks(i, old(epoch))
      ensures !advanced ==> epoch == old(epoch) && lists == old(lists) && deleted == old(deleted)
      ensures advanced ==>
                var j := epoch % 3;
                && epoch == old(epoch) + 1 && lists == old(lists)[j := []] && deleted == old(deleted) + old(lists)[j]
                && forall k :: 0 <= k < |old(lists)[j]| ==> old(lists)[j][k].epoch + 3 == epoch
    {
      var current := epoch;
      for i := 0 to inUse.Length
        invariant Valid() && epoch == current && lists == old(lists) && deleted == old(deleted)
        invariant forall k :: 0 <= k < i ==> !Blocks(k, current)
      {
        if !inUse[i] { continue; }
        if localEpoch[i] != INACTIVE && localEpoch[i] != current {
          assert Blocks(i, current);
          return false;
        }
      }
      epoch := current + 1;
      var j := epoch % 3;
      var toFree := lists[j];
      assert forall k :: 0 <= k < |toFree| ==> ListOk(toFree, j, current) && toFree[k].epoch + 3 == epoch;
      lists := lists[j := []];
      for k := 0 to |toFree|
        invariant deleted == old(deleted) + toFree[..k]
        modifies this`deleted
      {
        deleted := deleted + [toFree[k]];
        assert toFree[..k + 1] == toFree[..k] + [toFree[k]];
      }
      assert toFree[..|toFree|] == toFree;
      forall i | 0 <= i < inUse.Length && localEpoch[i] != INACTIVE
        ensures localEpoch[i] == current
      {
        assert !Blocks(i, current);
      }
      return true;
    }

    /** Appends to the list of the current epoch and then tries to advance; no pointer is lost or deleted twice. */
    method Retire(ptr: nat) returns (advanced: bool)
      requires Valid() && epoch + 1 < INACTIVE
      modifies this`epoch, this`lists, this`deleted
      ensures Valid()
      ensures advanced <==> forall i :: 0 <= i < inUse.Length ==> !Blocks(i, old(epoch))
      ensures epoch == old(epoch) + (if advanced then 1 else 0)
      ensures lists == AfterRetire(old(lists), old(epoch), ptr, advanced)
      ensures deleted == old(deleted) + if advanced then old(lists)[(old(epoch) + 1) % 3] else []
    {
      var idx := epoch % 3;
      lists := lists[idx := lists[idx] + [Retired(ptr, epoch)]];
      advanced := TryAdvance();
    }

    /** The destructor deletes everything that is still waiting. */
    method Destroy()
      requires Valid()
      modifies this`lists, this`deleted
      ensures deleted == old(deleted) + old(lists)[0] + old(lists)[1] + old(lists)[2] && lists == [[], [], []]
    {
      for j := 0 to 3
        invariant |lists| == 3 && lists == old(lists)
        invariant deleted == old(deleted) + (if j > 0 then lists[0] else []) + (if j > 1 then lists[1] else [])
                             + (if j > 2 then lists[2] else [])
      {
        ghost var before := deleted;
        for k := 0 to |lists[j]|
          invariant |lists| == 3 && lists == old(lists) && deleted == before + lists[j][..k]
        {
          deleted := deleted + [lists[j][k]];
          assert lists[j][..k + 1] == lists[j][..k] + [lists[j][k]];
        }
        assert lists[j][..|lists[j]|] == lists[j];
      }
      lists := [[], [], []];
    }
  }
}

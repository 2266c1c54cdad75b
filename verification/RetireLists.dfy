/** The three retire lists of the reclaimer, as what waits on them. */
module RetireLists {

  /** Everything on the three lists. */
  ghost function Waiting<X>(lists: seq<seq<X>>): multiset<X>
    requires |lists| == 3
  {
    multiset(lists[0]) + multiset(lists[1]) + multiset(lists[2])
  }

  lemma {:induction false} WaitingAppend<X>(lists: seq<seq<X>>, j: nat, x: X)
    requires |lists| == 3 && j < 3
    ensures Waiting(lists[j := lists[j] + [x]]) == Waiting(lists) + multiset{x}
  {
  }

  lemma {:induction false} WaitingClear<X>(lists: seq<seq<X>>, j: nat)
    requires |lists| == 3 && j < 3
    ensures Waiting(lists[j := []]) + multiset(lists[j]) == Waiting(lists)
  {
  }
}

/** The lock-free object pool (include/lockless/object_pool.hpp): the array stack of object
    indices, used by disciplined clients that release only what they hold. */
module Pool {
  import opened Options
  import S = Stack
  import opened StackInv
  import StackTheorems

  type Word = S.State<nat>

  /** Where an object is: at a depth of the stack of free objects, with a client, or in the hands of a
      thread that is acquiring or releasing it. */
  datatype Place = OnStack(i: nat) | WithClient | Moving(t: nat)

  /** `held` are the objects whose acquire has returned and whose release has not begun; `place` is
      history that no action tests. */
  datatype State = State(st: Word, held: set<nat>, place: seq<Place>)

  datatype Label = Acquire(t: nat) | Release(t: nat, obj: nat) | Step(t: nat, spurious: bool)

  function Local(p: State, t: nat): S.Local<nat>
    requires t < |p.st.threads|
  {
    p.st.threads[t]
  }

  /** The object a thread is moving: the one it releases, or the one its pop has claimed. */
  function Carried(l: S.Local<nat>): Option<nat> {
    if l.pc in {S.Own, S.PushLoad, S.PushStore, S.PushCas} then
      (if l.op.TryPush? then Some(l.op.v) else l.lin)
    else if l.pc in {S.PopLoad, S.PopNext, S.PopCas} && l.op.TryPush? then Some(l.op.v)
    else None
  }

  function Relocate(place: seq<Place>, o: Option<nat>, x: Place): seq<Place> {
    if o.Some? && o.value < |place| then place[o.value := x] else place
  }

  /** An action of the stack, with the client-side consequence of a returning acquire. */
  function Act(p: State, t: nat, spurious: bool): State
    requires S.WellShaped(p.st) && t < |p.st.threads|
  {
    var l := Local(p, t);
    var st' := S.Act(p.st, t, spurious);
    var l' := st'.threads[t];
    if l.pc == S.PopCas && l'.pc == S.Own && l.op.TryPop? then
      State(st', p.held, Relocate(p.place, l'.lin, Moving(t)))
    else if l.pc == S.PushCas && l'.pc == S.Won then
      if l.op.TryPush? then State(st', p.held, Relocate(p.place, Carried(l), OnStack(|p.st.top.list|)))
      else State(st', if l.out.Some? then p.held + {l.out.value} else p.held, Relocate(p.place, l.out, WithClient))
    else State(st', p.held, p.place)
  }

  function Next(p: State, a: Label): State
    requires S.WellShaped(p.st)
  {
    match a
    case Acquire(t) => p.(st := S.Next(p.st, S.Call(t, S.TryPop)))
    case Release(t, o) =>
      if t < |p.st.threads| && S.AtRest(Local(p, t).pc) && o in p.held then
        State(S.Next(p.st, S.Call(t, S.TryPush(o))), p.held - {o}, Relocate(p.place, Some(o), Moving(t)))
      else p
    case Step(t, spurious) => if t < |p.st.threads| then Act(p, t, spurious) else p
  }

  /** Threads whose release has not yet obtained a node. */
  ghost function Releasing(st: Word): set<nat> {
    set t: nat | t < |st.threads| && Needs(st.threads[t])
  }

  predicate Needs(l: S.Local<nat>) {
    l.op.TryPush? && l.pc in {S.PopLoad, S.PopNext, S.PopCas}
  }

  // ---------------------------------------------------------------- invariant

  ghost predicate PlaceOk(p: State, o: nat)
    requires o < |p.place|
  {
    match p.place[o]
    case OnStack(i) => i < |p.st.top.list| && p.st.top.list[i] < |p.st.data| && p.st.data[p.st.top.list[i]] == o
    case WithClient => o in p.held
    case Moving(t) => t < |p.st.threads| && Carried(Local(p, t)) == Some(o)
  }

  ghost predicate StackedOk(p: State, i: nat)
    requires i < |p.st.top.list|
  {
    var k := p.st.top.list[i];
    k < |p.st.data| && p.st.data[k] < |p.place| && p.place[p.st.data[k]] == OnStack(i)
  }

  ghost predicate CarriedOk(p: State, t: nat)
    requires t < |p.st.threads|
  {
    var c := Carried(Local(p, t));
    && (c.Some? ==> c.value < |p.place| && p.place[c.value] == Moving(t))
    && !(Local(p, t).op.TryPush? && Local(p, t).pc == S.Lost)
  }

  /** Every object is in exactly one place. */
  ghost predicate Objects(p: State) {
    && |p.place| == |p.st.next|
    && (forall o {:trigger p.place[o]} :: 0 <= o < |p.place| ==> PlaceOk(p, o))
    && (forall i {:trigger p.st.top.list[i]} :: 0 <= i < |p.st.top.list| ==> StackedOk(p, i))
    && (forall o {:trigger o in p.held} :: o in p.held ==> o < |p.place| && p.place[o] == WithClient)
    && (forall t {:trigger p.st.threads[t]} :: 0 <= t < |p.st.threads| ==> CarriedOk(p, t))
  }

  /** As many nodes are free as there are objects out with clients or waiting for a node. */
  ghost predicate Counted(p: State) {
    |p.st.free.list| == |p.held| + |Releasing(p.st)|
  }

  ghost predicate Inv(p: State) {
    StackInv.Inv(p.st) && Objects(p) && Counted(p)
  }

  /** What the constructor's fill loop leaves: object `i` at depth `i`, no free node, no client. */
  ghost predicate Filled(p: State) {
    && StackInv.Inv(p.st) && |p.st.top.list| == |p.st.next| == |p.place| && p.st.free.list == [] && p.held == {}
    && (forall i :: 0 <= i < |p.place| ==> p.place[i] == OnStack(i))
    && (forall i :: 0 <= i < |p.st.top.list| ==> p.st.top.list[i] < |p.st.data| && p.st.data[p.st.top.list[i]] == i)
    && forall t :: 0 <= t < |p.st.threads| ==> p.st.threads[t].pc == S.Idle
  }

  lemma FilledInv(p: State)
    requires Filled(p)
    ensures Inv(p)
  {
    forall o | 0 <= o < |p.place| ensures PlaceOk(p, o) { assert p.place[o] == OnStack(o); }
    forall i | 0 <= i < |p.st.top.list| ensures StackedOk(p, i) { assert p.st.data[p.st.top.list[i]] == i; }
    forall t | 0 <= t < |p.st.threads|
      ensures CarriedOk(p, t)
    {
      assert p.st.threads[t].pc == S.Idle;
    }
    assert Releasing(p.st) == {};
  }

  lemma ReleasingSame(st: Word, st': Word, t: nat)
    requires |st'.threads| == |st.threads| && t < |st.threads|
    requires forall u :: 0 <= u < |st.threads| && u != t ==> st'.threads[u] == st.threads[u]
    ensures Releasing(st') == if Needs(st'.threads[t]) then Releasing(st) + {t} else Releasing(st) - {t}
  {
  }

  /** A releasing thread is counted, so a free node is waiting for it: its reads of the free head never
      find it empty. */
  lemma NodeForRelease(p: State, t: nat)
    requires Inv(p) && t < |p.st.threads| && Needs(Local(p, t))
    ensures p.st.free.list != []
  {
    assert t in Releasing(p.st);
    assert |Releasing(p.st)| > 0;
  }

  lemma ActShape(st: Word, t: nat, spurious: bool)
    requires S.WellShaped(st) && t < |st.threads|
    ensures var st' := S.Act(st, t, spurious);
            && |st'.threads| == |st.threads| && |st'.next| == |st.next| && S.WellShaped(st')
            && forall u :: 0 <= u < |st.threads| && u != t ==> st'.threads[u] == st.threads[u]
  {
  }

  /** A release never loses its node: `try_push`, whose result the code ignores, does not fail. */
  lemma NotLost(p: State, t: nat, spurious: bool)
    requires Inv(p) && t < |p.st.threads| && Needs(Local(p, t))
    ensures S.Act(p.st, t, spurious).threads[t].pc in {S.PopNext, S.PopCas, S.Own}
  {
    NodeForRelease(p, t);
    StackTheorems.NullHead(p.st, S.FreeList);
    assert ThreadOk(p.st, t);
  }

  /** Only thread `t` moved, and nodes and objects keep their number. */
  ghost predicate Moved(p: State, p': State, t: nat) {
    && t < |p.st.threads| == |p'.st.threads| && |p'.st.next| == |p.st.next| && |p'.st.data| == |p.st.data|
    && (forall u :: 0 <= u < |p.st.threads| && u != t ==> p'.st.threads[u] == p.st.threads[u])
    && !(Local(p', t).op.TryPush? && Local(p', t).pc == S.Lost)
  }

  ghost predicate SameData(p: State, p': State) {
    |p'.st.data| == |p.st.data|
    && forall k :: k in p.st.top.list && k < |p.st.data| ==> p'.st.data[k] == p.st.data[k]
  }

  /** No object changes place. */
  lemma FrameObjects(p: State, p': State, t: nat)
    requires Objects(p) && Moved(p, p', t) && SameData(p, p')
    requires p'.held == p.held && p'.place == p.place && p'.st.top.list == p.st.top.list
    requires Carried(Local(p', t)) == Carried(Local(p, t))
    ensures Objects(p')
  {
    assert CarriedOk(p, t);
    forall o | 0 <= o < |p'.place| ensures PlaceOk(p', o) { assert PlaceOk(p, o); }
    forall i | 0 <= i < |p'.st.top.list| ensures StackedOk(p', i) { assert StackedOk(p, i); }
    forall u | 0 <= u < |p'.st.threads| ensures CarriedOk(p', u) { assert CarriedOk(p, u); }
  }

  /** The object on top of the stack goes to thread `t`. */
  lemma TakeObjects(p: State, p': State, t: nat, o: nat)
    requires Objects(p) && Moved(p, p', t) && SameData(p, p') && p.st.top.list != []
    requires p'.st.top.list == S.DropTop(p.st.top.list) && p.st.top.list[|p.st.top.list| - 1] < |p.st.data|
    requires o == p.st.data[p.st.top.list[|p.st.top.list| - 1]] && o < |p.place|
    requires p'.held == p.held && p'.place == p.place[o := Moving(t)]
    requires Carried(Local(p, t)) == None && Carried(Local(p', t)) == Some(o)
    ensures Objects(p')
  {
    assert StackedOk(p, |p.st.top.list| - 1);
    forall x | 0 <= x < |p'.place| ensures PlaceOk(p', x) { assert PlaceOk(p, x); }
    forall i | 0 <= i < |p'.st.top.list| ensures StackedOk(p', i) { assert StackedOk(p, i); }
    forall u | 0 <= u < |p'.st.threads| ensures CarriedOk(p', u) { assert CarriedOk(p, u); }
  }

  /** Thread `t` puts its object on the stack. */
  lemma GiveObjects(p: State, p': State, t: nat, o: nat, k: nat)
    requires Objects(p) && Moved(p, p', t) && SameData(p, p') && k < |p.st.data|
    requires p'.st.top.list == p.st.top.list + [k] && p'.st.data[k] == o && o < |p.place|
    requires p'.held == p.held && p'.place == p.place[o := OnStack(|p.st.top.list|)]
    requires Carried(Local(p, t)) == Some(o) && Carried(Local(p', t)) == None
    ensures Objects(p')
  {
    assert CarriedOk(p, t);
    forall x | 0 <= x < |p'.place| ensures PlaceOk(p', x) { assert PlaceOk(p, x); }
    forall i | 0 <= i < |p'.st.top.list| ensures StackedOk(p', i) {
      if i < |p.st.top.list| { assert StackedOk(p, i); }
    }
    forall u | 0 <= u < |p'.st.threads| ensures CarriedOk(p', u) { assert CarriedOk(p, u); }
  }

  /** Thread `t` hands its object to the client. */
  lemma HandObjects(p: State, p': State, t: nat, o: nat)
    requires Objects(p) && Moved(p, p', t) && SameData(p, p') && p'.st.top.list == p.st.top.list
    requires o < |p.place| && p'.held == p.held + {o} && p'.place == p.place[o := WithClient]
    requires Carried(Local(p, t)) == Some(o) && Carried(Local(p', t)) == None
    ensures Objects(p') && o !in p.held
  {
    assert CarriedOk(p, t);
    forall x | 0 <= x < |p'.place| ensures PlaceOk(p', x) { assert PlaceOk(p, x); }
    forall i | 0 <= i < |p'.st.top.list| ensures StackedOk(p', i) { assert StackedOk(p, i); }
    forall u | 0 <= u < |p'.st.threads| ensures CarriedOk(p', u) { assert CarriedOk(p, u); }
  }

  /** The client hands an object it holds to thread `t`. */
  lemma ReturnObjects(p: State, p': State, t: nat, o: nat)
    requires Objects(p) && Moved(p, p', t) && SameData(p, p') && p'.st.top.list == p.st.top.list
    requires o in p.held && o < |p.place| && p'.held == p.held - {o} && p'.place == p.place[o := Moving(t)]
    requires Carried(Local(p, t)) == None && Carried(Local(p', t)) == Some(o)
    ensures Objects(p')
  {
    forall x | 0 <= x < |p'.place| ensures PlaceOk(p', x) { assert PlaceOk(p, x); }
    forall i | 0 <= i < |p'.st.top.list| ensures StackedOk(p', i) { assert StackedOk(p, i); }
    forall u | 0 <= u < |p'.st.threads| ensures CarriedOk(p', u) { assert CarriedOk(p, u); }
  }

  /** Stack actions write only data that is not on the stack. */
  lemma ActData(st: Word, t: nat, spurious: bool)
    requires StackInv.Inv(st) && t < |st.threads|
    ensures var st' := S.Act(st, t, spurious);
            |st'.data| == |st.data| && forall k :: k in st.top.list && k < |st.data| ==> st'.data[k] == st.data[k]
  {
    if st.threads[t].pc == S.Own { StackTheorems.WriteOffStack(st, t); }
  }

  lemma ActStack(p: State, t: nat, spurious: bool)
    requires S.WellShaped(p.st) && t < |p.st.threads|
    ensures Act(p, t, spurious).st == S.Act(p.st, t, spurious)
  {
  }

  lemma ActMoved(p: State, t: nat, spurious: bool)
    requires Inv(p) && t < |p.st.threads|
    ensures Moved(p, Act(p, t, spurious), t) && SameData(p, Act(p, t, spurious))
  {
    ActStack(p, t, spurious);
    ActShape(p.st, t, spurious);
    ActData(p.st, t, spurious);
    assert CarriedOk(p, t);
    if Needs(Local(p, t)) { NotLost(p, t, spurious); }
  }

  /** A release puts its object on top of the stack. */
  lemma Released(p: State, t: nat)
    requires Inv(p) && t < |p.st.threads| && Local(p, t).pc == S.PushCas && Local(p, t).op.TryPush?
    requires p.st.top.head == Local(p, t).seen
    ensures Objects(Act(p, t, false))
  {
    ActMoved(p, t, false);
    assert ThreadOk(p.st, t) && CarriedOk(p, t);
    GiveObjects(p, Act(p, t, false), t, Local(p, t).op.v, Local(p, t).idx);
  }

  /** A returning acquire hands its object to the client, who did not have it. */
  lemma Acquired(p: State, t: nat)
    requires Inv(p) && t < |p.st.threads| && Local(p, t).pc == S.PushCas && Local(p, t).op.TryPop?
    requires p.st.free.head == Local(p, t).seen
    ensures Objects(Act(p, t, false))
    ensures Local(p, t).out.Some? && Local(p, t).out.value !in p.held
    ensures Act(p, t, false).held == p.held + {Local(p, t).out.value}
  {
    ActMoved(p, t, false);
    assert ThreadOk(p.st, t) && CarriedOk(p, t);
    HandObjects(p, Act(p, t, false), t, Local(p, t).out.value);
  }

  /** An acquire takes the object on top of the stack. */
  lemma Claimed(p: State, t: nat)
    requires Inv(p) && t < |p.st.threads| && Local(p, t).pc == S.PopCas && Local(p, t).op.TryPop?
    requires TagFresh(p.st, t) && p.st.top.head == Local(p, t).seen
    ensures Objects(Act(p, t, false))
  {
    ActMoved(p, t, false);
    AbaSafe(p.st, t);
    assert ThreadOk(p.st, t);
    assert StackedOk(p, |p.st.top.list| - 1);
    TakeObjects(p, Act(p, t, false), t, p.st.data[Local(p, t).seen.index]);
  }

  /** Every other action leaves the objects alone. */
  lemma Quiet(p: State, t: nat, spurious: bool)
    requires Inv(p) && t < |p.st.threads|
    requires Local(p, t).pc == S.PushCas ==> S.Get(p.st, S.To(Local(p, t).op)).head != Local(p, t).seen || spurious
    requires Local(p, t).pc == S.PopCas && Local(p, t).op.TryPop? ==> p.st.top.head != Local(p, t).seen || spurious
    ensures Objects(Act(p, t, spurious)) && Act(p, t, spurious).held == p.held
  {
    ActMoved(p, t, spurious);
    assert ThreadOk(p.st, t);
    if Needs(Local(p, t)) { NotLost(p, t, spurious); }
    FrameObjects(p, Act(p, t, spurious), t);
  }

  /** Every atomic action keeps every object in exactly one place. */
  lemma ActObjects(p: State, t: nat, spurious: bool)
    requires Inv(p) && t < |p.st.threads| && TagFresh(p.st, t)
    ensures Objects(Act(p, t, spurious))
  {
    var l := Local(p, t);
    if l.pc == S.PushCas && !spurious && S.Get(p.st, S.To(l.op)).head == l.seen {
      if l.op.TryPush? { Released(p, t); } else { Acquired(p, t); }
    } else if l.pc == S.PopCas && l.op.TryPop? && !spurious && p.st.top.head == l.seen {
      Claimed(p, t);
    } else {
      Quiet(p, t, spurious);
    }
  }

  lemma RemoveOne(a: set<nat>, t: nat)
    requires t in a
    ensures |a - {t}| == |a| - 1
  {
  }

  /** A release either still needs a node or has just taken one off the free list. */
  lemma ReleaseTakes(p: State, t: nat, spurious: bool)
    requires Inv(p) && t < |p.st.threads| && TagFresh(p.st, t) && Needs(Local(p, t))
    ensures var st' := S.Act(p.st, t, spurious);
            |st'.free.list| == |p.st.free.list| - if Needs(st'.threads[t]) then 0 else 1
  {
    NotLost(p, t, spurious);
    assert ThreadOk(p.st, t);
    if Local(p, t).pc == S.PopCas && p.st.free.head == Local(p, t).seen { AbaSafe(p.st, t); }
  }

  lemma CountRelease(p: State, t: nat, spurious: bool)
    requires Inv(p) && t < |p.st.threads| && TagFresh(p.st, t) && Needs(Local(p, t))
    requires Act(p, t, spurious).held == p.held
    ensures Counted(Act(p, t, spurious))
  {
    ActStack(p, t, spurious);
    ActShape(p.st, t, spurious);
    ReleasingSame(p.st, S.Act(p.st, t, spurious), t);
    ReleaseTakes(p, t, spurious);
    assert t in Releasing(p.st);
    RemoveOne(Releasing(p.st), t);
    assert Releasing(p.st) + {t} == Releasing(p.st);
  }

  lemma OtherNeeds(p: State, t: nat, spurious: bool)
    requires S.WellShaped(p.st) && t < |p.st.threads| && !Needs(Local(p, t))
    ensures Releasing(Act(p, t, spurious).st) == Releasing(p.st)
  {
    ActStack(p, t, spurious);
    ActShape(p.st, t, spurious);
    ReleasingSame(p.st, S.Act(p.st, t, spurious), t);
    assert t !in Releasing(p.st);
  }

  lemma CountAcquire(p: State, t: nat)
    requires Inv(p) && t < |p.st.threads| && Local(p, t).pc == S.PushCas && Local(p, t).op.TryPop?
    requires p.st.free.head == Local(p, t).seen
    ensures Counted(Act(p, t, false))
  {
    OtherNeeds(p, t, false);
    Acquired(p, t);
    ActStack(p, t, false);
    assert ThreadOk(p.st, t);
  }

  lemma OtherFree(st: Word, t: nat, spurious: bool)
    requires StackInv.Inv(st) && t < |st.threads| && !Needs(st.threads[t])
    requires st.threads[t].pc == S.PushCas && st.threads[t].op.TryPop? ==>
               st.free.head != st.threads[t].seen || spurious
    ensures S.Act(st, t, spurious).free == st.free
  {
  }

  lemma CountOther(p: State, t: nat, spurious: bool)
    requires Inv(p) && t < |p.st.threads| && !Needs(Local(p, t))
    requires Local(p, t).pc == S.PushCas && Local(p, t).op.TryPop? ==> p.st.free.head != Local(p, t).seen || spurious
    ensures Counted(Act(p, t, spurious))
  {
    OtherNeeds(p, t, spurious);
    OtherFree(p.st, t, spurious);
    ActStack(p, t, spurious);
    assert Act(p, t, spurious).held == p.held;
  }

  /** Every atomic action keeps the count of free nodes. */
  lemma ActCounted(p: State, t: nat, spurious: bool)
    requires Inv(p) && t < |p.st.threads| && TagFresh(p.st, t)
    ensures Counted(Act(p, t, spurious))
  {
    var l := Local(p, t);
    if Needs(l) {
      Quiet(p, t, spurious);
      CountRelease(p, t, spurious);
    } else if l.pc == S.PushCas && l.op.TryPop? && !spurious && p.st.free.head == l.seen {
      CountAcquire(p, t);
    } else {
      CountOther(p, t, spurious);
    }
  }

  /** Starting `acquire` keeps the invariant. */
  lemma AcquireInv(p: State, t: nat)
    requires Inv(p) && t < |p.st.threads| && S.AtRest(Local(p, t).pc)
    ensures Inv(Next(p, Acquire(t)))
  {
    var p' := Next(p, Acquire(t));
    ReleasingSame(p.st, p'.st, t);
    assert t !in Releasing(p.st);
    StackTheorems.NextInv(p.st, S.Call(t, S.TryPop));
    FrameObjects(p, p', t);
  }

  /** Starting `release` of an object the client holds keeps the invariant. */
  lemma ReleaseInv(p: State, t: nat, o: nat)
    requires Inv(p) && t < |p.st.threads| && S.AtRest(Local(p, t).pc) && o in p.held
    ensures Inv(Next(p, Release(t, o)))
  {
    var p' := Next(p, Release(t, o));
    StackTheorems.NextInv(p.st, S.Call(t, S.TryPush(o)));
    ReturnObjects(p, p', t, o);
    ReleaseCounted(p, t, o);
  }

  /** The object leaves its client and its release joins those that wait for a node. */
  lemma ReleaseCounted(p: State, t: nat, o: nat)
    requires S.WellShaped(p.st) && Counted(p) && t < |p.st.threads| && S.AtRest(Local(p, t).pc) && o in p.held
    ensures Counted(Next(p, Release(t, o)))
  {
    ReleasingSame(p.st, Next(p, Release(t, o)).st, t);
    assert t !in Releasing(p.st);
    RemoveOne(p.held, o);
  }

  /** A client call keeps the invariant. */
  lemma CallInv(p: State, a: Label)
    requires Inv(p) && !a.Step?
    ensures Inv(Next(p, a))
  {
    if a.t < |p.st.threads| && S.AtRest(Local(p, a.t).pc) {
      if a.Acquire? {
        AcquireInv(p, a.t);
      } else if a.obj in p.held {
        ReleaseInv(p, a.t, a.obj);
      }
    }
  }

  /** Every scheduler choice keeps the invariant. */
  lemma NextInv(p: State, a: Label)
    requires Inv(p) && (a.Step? && a.t < |p.st.threads| ==> TagFresh(p.st, a.t))
    ensures Inv(Next(p, a))
  {
    if a.Step? {
      if a.t < |p.st.threads| {
        ActObjects(p, a.t, a.spurious);
        ActCounted(p, a.t, a.spurious);
        ActStack(p, a.t, a.spurious);
        ActInv(p.st, a.t, a.spurious);
      }
    } else {
      CallInv(p, a);
    }
  }

  lemma NextShape(p: State, a: Label)
    requires S.WellShaped(p.st)
    ensures S.WellShaped(Next(p, a).st)
  {
    if a.Step? && a.t < |p.st.threads| { ActStack(p, a.t, a.spurious); }
  }

  function Exec(p: State, run: seq<Label>): (r: State)
    requires S.WellShaped(p.st)
    ensures S.WellShaped(r.st)
    decreases |run|
  {
    if run == [] then p else NextShape(p, run[0]); Exec(Next(p, run[0]), run[1..])
  }

  /** The ABA hypothesis of the underlying stack, on a whole run. */
  predicate FreshRun(p: State, run: seq<Label>)
    requires S.WellShaped(p.st)
    decreases |run|
  {
    run != [] ==>
      && (run[0].Step? && run[0].t < |p.st.threads| ==> TagFresh(p.st, run[0].t))
      && (NextShape(p, run[0]); FreshRun(Next(p, run[0]), run[1..]))
  }

  lemma {:induction false} ExecInv(p: State, run: seq<Label>)
    requires Inv(p) && FreshRun(p, run)
    ensures Inv(Exec(p, run))
    decreases |run|
  {
    if run != [] {
      NextInv(p, run[0]);
      ExecInv(Next(p, run[0]), run[1..]);
    }
  }

  /** Main theorem: in every run of disciplined clients no release ever fails for want of a node, and
      the free nodes number exactly the objects out with clients plus the releases still waiting. */
  lemma {:induction false} ReleaseNeverFails(p: State, run: seq<Label>, t: nat)
    requires Inv(p) && FreshRun(p, run) && t < |Exec(p, run).st.threads|
    ensures var r := Exec(p, run);
            && |r.st.free.list| == |r.held| + |Releasing(r.st)|
            && !(Local(r, t).op.TryPush? && Local(r, t).pc == S.Lost)
            && (Needs(Local(r, t)) ==> r.st.free.list != [])
  {
    ExecInv(p, run);
    var r := Exec(p, run);
    assert CarriedOk(r, t);
    if Needs(Local(r, t)) { NodeForRelease(r, t); }
  }

  /** The pool never hands out an object that is already out: when an acquire returns, its object was
      with no client, on no stack position and with no other thread. */
  lemma {:induction false} AcquireIsExclusive(p: State, run: seq<Label>, t: nat)
    requires Inv(p) && FreshRun(p, run) && t < |Exec(p, run).st.threads|
    requires var r := Exec(p, run);
             Local(r, t).pc == S.PushCas && Local(r, t).op.TryPop? && r.st.free.head == Local(r, t).seen
    ensures var r := Exec(p, run); var o := Local(r, t).out;
            && o.Some? && o.value !in r.held && Next(r, Step(t, false)).held == r.held + {o.value}
            && (forall u :: 0 <= u < |r.st.threads| && u != t ==> Carried(Local(r, u)) != o)
            && (forall i :: 0 <= i < |r.st.top.list| ==>
                  r.st.top.list[i] < |r.st.data| && r.st.data[r.st.top.list[i]] != o.value)
  {
    ExecInv(p, run);
    var r := Exec(p, run);
    Acquired(r, t);
    assert ThreadOk(r.st, t) && CarriedOk(r, t);
    forall u | 0 <= u < |r.st.threads| && u != t
      ensures Carried(Local(r, u)) != Local(r, t).out
    {
      assert CarriedOk(r, u);
    }
    forall i | 0 <= i < |r.st.top.list|
      ensures r.st.top.list[i] < |r.st.data| && r.st.data[r.st.top.list[i]] != Local(r, t).out.value
    {
      assert StackedOk(r, i);
    }
  }
}

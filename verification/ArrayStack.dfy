/** The array stack as the code is written, for callers that do not overlap:
    packed head words, link and data arrays updated in place, compare-exchange loops
    (include/lockless/array_stack.hpp). `spurious` is how often the
    weak compare-exchange of a loop fails although it could succeed. */
module ArrayStacks {
  import opened Options
  import opened Stack
  import opened StackInv
  import opened StackTheorems
  import opened StackSolo

  class ArrayStack<T(0)> {
    const links: array<nat>
    const data: array<T>
    var headRaw: nat
    var freeRaw: nat
    ghost var top: Top
    ghost var free: Top
    ghost var loc: seq<Loc>
    ghost var me: Local<T>

    ghost function View(): State<T>
      reads this, links, data
    {
      State(links[..], data[..], top, free, loc, [me])
    }

    /** The packed words are the machine's heads, and the machine's invariant holds. */
    ghost predicate Busy()
      reads this, links, data
    {
      && links as object != data && Inv(View())
      && Unpack(headRaw) == top.head && Unpack(freeRaw) == free.head
    }

    ghost predicate Valid()
      reads this, links, data
    {
      Busy() && AtRest(me.pc)
    }

    /** The values on the stack, bottom first. */
    ghost function Contents(): (q: seq<T>)
      requires Valid()
      reads this, links, data
    {
      Values(View())
    }

    function Raw(w: Which): nat
      reads this
    {
      if w == DataList then headRaw else freeRaw
    }

    constructor (capacity: nat)
      requires 1 <= capacity <= NULL
      ensures Valid() && Contents() == [] && links.Length == capacity
      ensures fresh(links) && fresh(data)
    {
      links := new nat[capacity];
      data := new T[capacity];
      headRaw, freeRaw := Pack(Head(NULL, 0)), Pack(Head(0, 0));
      top := Top(Head(NULL, 0), 0, []);
      free := Top(Head(0, 0), 0, seq(capacity, k requires 0 <= k < capacity => (capacity - 1 - k) as nat));
      loc := seq(capacity, k requires 0 <= k < capacity => In(FreeList, (capacity - 1 - k) as nat));
      me := Fresh<T>(Op.TryPop).(pc := Idle);
      new;
      for i := 0 to capacity - 1
        invariant fresh(links) && fresh(data) && links as object != data
        invariant forall j :: 0 <= j < i ==> links[j] == j + 1
        invariant Unpack(headRaw) == Head(NULL, 0) && Unpack(freeRaw) == Head(0, 0)
        invariant top == Top(Head(NULL, 0), 0, []) && me == Fresh<T>(Op.TryPop).(pc := Idle)
        invariant free == Top(Head(0, 0), 0, seq(capacity, k requires 0 <= k < capacity => (capacity - 1 - k) as nat))
        invariant loc == seq(capacity, k requires 0 <= k < capacity => In(FreeList, (capacity - 1 - k) as nat))
      {
        links[i] := i + 1;
      }
      links[capacity - 1] := NULL;
      InitInv(View());
    }

    /** Follow one action of the machine with the ghost state. */
    ghost method Follow(s: State<T>)
      requires |s.threads| == 1 && s.next == links[..] && s.data == data[..]
      modifies this`top, this`free, this`loc, this`me
      ensures View() == s && me == s.threads[0]
    {
      top, free, loc, me := s.top, s.free, s.loc, s.threads[0];
    }

    /** Nothing but the acting thread's locals has changed. */
    twostate predicate Same()
      reads this, links, data
    {
      old(Busy()) && Busy() && top == old(top) && free == old(free) && Values(View()) == old(Values(View()))
    }

    /** `pop_index`: load of the head. */
    method LoadForPop(w: Which) returns (raw: nat)
      requires Busy() && me.pc == PopLoad && w == From(me.op)
      modifies this`top, this`free, this`loc, this`me
      ensures Same() && raw == Raw(w) && me == Read(old(me), Get(View(), w))
    {
      raw := Raw(w);
      Sound(View(), false);
      Follow(Act(View(), 0, false));
    }

    /** `pop_index`: load of the successor. */
    method LoadNext(i: nat) returns (nxt: nat)
      requires Busy() && me.pc == PopNext && i == me.seen.index
      modifies this`top, this`free, this`loc, this`me
      ensures Same() && me == old(me).(nxt := nxt, pc := PopCas)
    {
      assert ThreadOk(View(), 0);
      nxt := links[i];
      Sound(View(), false);
      Follow(Act(View(), 0, false));
    }

    /** `pop_index`: the weak compare-exchange of the head. */
    method CasPop(w: Which, seen: nat, nxt: nat, spurious: bool) returns (ok: bool, now: nat)
      requires Busy() && me.pc == PopCas && w == From(me.op) && Unpack(seen) == me.seen && nxt == me.nxt
      requires TagFresh(View(), 0)
      modifies this
      ensures Busy()
      ensures ok <==> !spurious && old(Get(View(), w)).head == old(me.seen)
      ensures ok ==> me == old(me).(idx := old(me).seen.index, lin := old(Peek(View())), pc := Own)
      ensures ok ==> if w == FreeList then Values(View()) == old(Values(View()))
                     else me.lin.Some? && old(Values(View())) == Values(View()) + [me.lin.value]
      ensures !ok ==> Same() && now == Raw(w) && me == Read(old(me), Get(View(), w))
    {
      PopValues(View(), spurious);
      PopHeads(View(), spurious);
      RawEqual(Raw(w), seen);
      ghost var s' := Act(View(), 0, spurious);
      ok, now := Raw(w) == seen && !spurious, Raw(w);
      if ok {
        var raw := Pack(Bump(nxt, Unpack(seen)));
        if w == DataList { headRaw := raw; } else { freeRaw := raw; }
      }
      Follow(s');
    }

    /** `push_index`: load of the head. */
    method LoadForPush(w: Which) returns (raw: nat)
      requires Busy() && me.pc == PushLoad && w == To(me.op)
      modifies this`top, this`free, this`loc, this`me
      ensures Same() && raw == Raw(w)
      ensures me == old(me).(seen := Get(View(), w).head, ver := Get(View(), w).ver, pc := PushStore)
    {
      raw := Raw(w);
      Sound(View(), false);
      Follow(Act(View(), 0, false));
    }

    /** `push_index`: store of the link. */
    method StoreNext(idx: nat, v: nat)
      requires Busy() && me.pc == PushStore && idx == me.idx && v == me.seen.index
      modifies this`top, this`free, this`loc, this`me, links
      ensures Same() && headRaw == old(headRaw) && freeRaw == old(freeRaw) && me == old(me).(pc := PushCas)
    {
      assert ThreadOk(View(), 0);
      Sound(View(), false);
      ghost var s' := Act(View(), 0, false);
      links[idx] := v;
      Follow(s');
    }

    /** `push_index`: the weak compare-exchange of the head. */
    method CasPush(w: Which, seen: nat, idx: nat, spurious: bool) returns (ok: bool, now: nat)
      requires Busy() && me.pc == PushCas && w == To(me.op) && Unpack(seen) == me.seen && idx == me.idx
      modifies this
      ensures Busy()
      ensures ok <==> !spurious && old(Get(View(), w)).head == old(me.seen)
      ensures ok ==> me == old(me).(pc := Won)
      ensures ok ==> Values(View()) == old(Values(View())) + if me.op.TryPush? then [me.op.v] else []
      ensures !ok ==> Same() && now == Raw(w)
      ensures !ok ==> me == old(me).(seen := Get(View(), w).head, ver := Get(View(), w).ver, pc := PushStore)
    {
      PushLocals(View(), spurious);
      PushValues(View(), spurious);
      PushHeads(View(), spurious);
      RawEqual(Raw(w), seen);
      ghost var s' := Act(View(), 0, spurious);
      ok, now := Raw(w) == seen && !spurious, Raw(w);
      if ok {
        var raw := Pack(Bump(idx, Unpack(seen)));
        if w == DataList { headRaw := raw; } else { freeRaw := raw; }
      }
      Follow(s');
    }

    /** Takes the top node of list `w`, or returns NULL if there is none. */
    method PopIndex(w: Which, spurious: nat) returns (idx: nat)
      requires Busy() && me.pc == PopLoad && w == From(me.op)
      modifies this
      ensures Busy() && me.op == old(me.op)
      ensures idx == NULL <==> old(Get(View(), w)).list == []
      ensures idx == NULL ==> me.pc == Lost && Values(View()) == old(Values(View()))
      ensures idx != NULL ==> me.pc == Own && me.idx == idx < links.Length
      ensures idx != NULL ==>
                if me.op.TryPush? then Values(View()) == old(Values(View()))
                else me.lin.Some? && old(Values(View())) == Values(View()) + [me.lin.value]
    {
      NullHead(View(), w);
      ghost var q, list := Values(View()), Get(View(), w);
      var seen := LoadForPop(w);
      var failures := spurious;
      while true
        invariant Busy() && me.op == old(me.op) && Values(View()) == q
        invariant Unpack(seen) == Unpack(Raw(w)) == me.seen && Get(View(), w) == list && me.ver == list.ver
        invariant me.pc == if me.seen.index == NULL then Lost else PopNext
        decreases failures
      {
        var h := Unpack(seen);
        if h.index == NULL { return NULL; }
        var nxt := LoadNext(h.index);
        var ok;
        ok, seen := CasPop(w, seen, nxt, failures > 0);
        if ok {
          assert ThreadOk(View(), 0);
          return h.index;
        }
        failures := failures - 1;
      }
    }

    /** Puts the node in hand on top of list `w`. */
    method PushIndex(w: Which, idx: nat, spurious: nat)
      requires Busy() && me.pc == PushLoad && w == To(me.op) && idx == me.idx
      modifies this, links
      ensures Busy() && me.op == old(me.op) && me.out == old(me.out) && me.lin == old(me.lin) && me.pc == Won
      ensures Values(View()) ==
                if me.op.TryPush? then old(Values(View())) + [me.op.v] else old(Values(View()))
    {
      ghost var q := Values(View());
      var seen := LoadForPush(w);
      var failures := spurious;
      while true
        invariant Busy() && me.op == old(me.op) && me.out == old(me.out) && me.lin == old(me.lin)
        invariant Values(View()) == q && me.idx == idx && me.pc == PushStore
        invariant Unpack(seen) == Unpack(Raw(w)) == me.seen == Get(View(), w).head
        decreases failures
      {
        var h := Unpack(seen);
        assert ThreadOk(View(), 0);
        StoreNext(idx, h.index);
        var ok;
        ok, seen := CasPush(w, seen, idx, failures > 0);
        if ok { return; }
        failures := failures - 1;
      }
    }

    /** The copy into or out of the node in hand. */
    method WriteData(idx: nat, v: T)
      requires Busy() && me.pc == Own && idx == me.idx && me.op == Op.TryPush(v)
      modifies this`top, this`free, this`loc, this`me, data
      ensures Same() && me == old(me).(pc := PushLoad)
    {
      assert ThreadOk(View(), 0);
      Sound(View(), false);
      ghost var s' := Act(View(), 0, false);
      data[idx] := v;
      Follow(s');
    }

    method ReadData(idx: nat) returns (v: T)
      requires Busy() && me.pc == Own && idx == me.idx && me.op == Op.TryPop
      modifies this`top, this`free, this`loc, this`me
      ensures Same() && me == old(me).(pc := PushLoad, out := Some(v)) && me.lin == Some(v)
    {
      assert ThreadOk(View(), 0);
      v := data[idx];
      Sound(View(), false);
      Follow(Act(View(), 0, false));
    }

    /** The machine's record of a new call. */
    ghost method Begin(op: Op<T>)
      requires Valid()
      modifies this`me
      ensures Busy() && me == Fresh(op) && Values(View()) == old(Values(View()))
    {
      StackTheorems.NextInv(View(), Call(0, op));
      assert Next(View(), Call(0, op)).threads == [Fresh(op)];
      me := Fresh(op);
    }

    method TryPush(v: T, spurious: nat) returns (ok: bool)
      requires Valid()
      modifies this, links, data
      ensures Valid()
      ensures ok <==> old(|Contents()|) < links.Length
      ensures Contents() == if ok then old(Contents()) + [v] else old(Contents())
    {
      LengthsSum(View());
      Begin(Op.TryPush(v));
      var idx := PopIndex(FreeList, spurious);
      if idx == NULL { return false; }
      WriteData(idx, v);
      PushIndex(DataList, idx, spurious);
      return true;
    }

    method TryPop(spurious: nat) returns (ok: bool, v: T)
      requires Valid()
      modifies this, links
      ensures Valid()
      ensures ok <==> old(Contents()) != []
      ensures ok ==> old(Contents()) == Contents() + [v]
      ensures !ok ==> Contents() == old(Contents())
    {
      Begin(Op.TryPop);
      var idx := PopIndex(DataList, spurious);
      if idx == NULL {
        ok, v := false, *;
        return;
      }
      assert ThreadOk(View(), 0);
      v := ReadData(idx);
      PushIndex(FreeList, idx, spurious);
      ok := true;
    }
  }
}

/** The shared-memory bump allocator (include/lockless/message_queue.hpp) as a state machine on 64-bit
    words: any number of threads in the compare-exchange loop of `allocate`. */
module Arena {
  import opened Arith


  /** A returned block: `len` bytes from offset `off`. */
  datatype Region = Region(off: nat, len: nat)

  /** About to load the offset, about to exchange it; or returned a block, or threw. */
  datatype PC = Idle | Load | Cas | Got | Threw

  datatype Local = Local(pc: PC, bytes: nat, cur: nat)

  /** `regions` is every block ever returned, oldest first: history that no action tests. */
  datatype State = State(size: nat, off: nat, regions: seq<Region>, threads: seq<Local>)

  datatype Label = Call(t: nat, bytes: nat) | Step(t: nat, spurious: bool)

  /** The offset after a block, as `size_t` computes it. */
  function Bumped(cur: nat, bytes: nat): nat { (cur + bytes) % WORD }

  /** The bounds check on the value just read. */
  function Check(l: Local, cur: nat, size: nat): Local {
    l.(cur := cur, pc := if Bumped(cur, l.bytes) > size then Threw else Cas)
  }

  function SetLocal(s: State, t: nat, l: Local): State
    requires t < |s.threads|
  {
    s.(threads := s.threads[t := l])
  }

  function Act(s: State, t: nat, spurious: bool): State
    requires t < |s.threads|
  {
    var l := s.threads[t];
    match l.pc
    case Load => SetLocal(s, t, Check(l, s.off, s.size))
    case Cas =>
      if s.off == l.cur && !spurious then
        SetLocal(s, t, l.(pc := Got)).(off := Bumped(l.cur, l.bytes), regions := s.regions + [Region(l.cur, l.bytes)])
      else SetLocal(s, t, Check(l, s.off, s.size))
    case _ => s
  }

  predicate AtRest(pc: PC) { pc in {Idle, Got, Threw} }

  function Next(s: State, a: Label): State {
    match a
    case Call(t, b) =>
      if t < |s.threads| && AtRest(s.threads[t].pc) then SetLocal(s, t, Local(Load, b, 0)) else s
    case Step(t, spurious) => if t < |s.threads| then Act(s, t, spurious) else s
  }

  function Exec(s: State, run: seq<Label>): State
    decreases |run|
  {
    if run == [] then s else Exec(Next(s, run[0]), run[1..])
  }

  predicate Init(s: State) {
    s.off == 0 && s.regions == [] && forall t :: 0 <= t < |s.threads| ==> s.threads[t] == Local(Idle, 0, 0)
  }

  // ---------------------------------------------------------------- disjoint blocks

  /** Blocks follow each other without gap or overlap, from 0 up to the current offset. */
  ghost predicate Packed(regions: seq<Region>, off: nat) {
    if regions == [] then off == 0
    else
      var last := regions[|regions| - 1];
      last.off + last.len == off && Packed(regions[..|regions| - 1], last.off)
  }

  /** No request can make the size computation wrap. */
  predicate Modest(s: State) {
    forall t {:trigger s.threads[t]} :: 0 <= t < |s.threads| ==> s.threads[t].bytes + s.size < WORD
  }

  ghost predicate Inv(s: State) {
    && s.off <= s.size && s.size < WORD && Packed(s.regions, s.off) && Modest(s)
    && forall t {:trigger s.threads[t]} :: 0 <= t < |s.threads| && s.threads[t].pc == Cas ==>
         s.threads[t].cur <= s.off && s.threads[t].cur + s.threads[t].bytes <= s.size
  }

  /** Labels whose request cannot wrap. */
  predicate ModestLabel(a: Label, size: nat) { a.Call? ==> a.bytes + size < WORD }

  /** A granted block extends the packed ones. */
  lemma {:induction false} PackedGrows(regions: seq<Region>, off: nat, len: nat)
    requires Packed(regions, off)
    ensures Packed(regions + [Region(off, len)], off + len)
  {
    var all := regions + [Region(off, len)];
    assert all[..|all| - 1] == regions;
  }

  lemma ActInv(s: State, t: nat, spurious: bool)
    requires Inv(s) && t < |s.threads|
    ensures Inv(Act(s, t, spurious)) && Act(s, t, spurious).size == s.size
  {
    BumpedExact(s.off, s.threads[t].bytes);
    PackedGrows(s.regions, s.off, s.threads[t].bytes);
  }

  lemma BumpedExact(cur: nat, bytes: nat)
    requires cur + bytes < WORD
    ensures Bumped(cur, bytes) == cur + bytes
  {
  }

  lemma NextInv(s: State, a: Label)
    requires Inv(s) && ModestLabel(a, s.size)
    ensures Inv(Next(s, a)) && Next(s, a).size == s.size
  {
    if a.Step? && a.t < |s.threads| { ActInv(s, a.t, a.spurious); }
  }

  /** Every block ends before the next one starts, and before the current offset. */
  lemma {:induction false} PackedOrder(regions: seq<Region>, off: nat, i: nat)
    requires Packed(regions, off) && i < |regions|
    ensures regions[i].off + regions[i].len <= off
    ensures forall j :: i < j < |regions| ==> regions[i].off + regions[i].len <= regions[j].off
  {
    var n := |regions| - 1;
    if i < n {
      var front := regions[..n];
      PackedOrder(front, regions[n].off, i);
      assert forall j :: 0 <= j < n ==> front[j] == regions[j];
    }
  }

  ghost predicate Disjoint(a: Region, b: Region) {
    a.off + a.len <= b.off || b.off + b.len <= a.off
  }

  lemma {:induction false} ExecInv(s: State, run: seq<Label>)
    requires Inv(s) && forall i :: 0 <= i < |run| ==> ModestLabel(run[i], s.size)
    ensures Inv(Exec(s, run)) && Exec(s, run).size == s.size
    decreases |run|
  {
    if run != [] {
      NextInv(s, run[0]);
      ExecInv(Next(s, run[0]), run[1..]);
    }
  }

  /** Main theorem: for any number of threads allocating concurrently, with requests that cannot wrap the
      size computation, all blocks ever returned are pairwise disjoint and inside the arena. */
  lemma {:induction false} BlocksDisjoint(s: State, run: seq<Label>, i: nat, j: nat)
    requires Init(s) && s.size < WORD && forall k :: 0 <= k < |run| ==> ModestLabel(run[k], s.size)
    requires i < j < |Exec(s, run).regions|
    ensures var r := Exec(s, run).regions;
            && Disjoint(r[i], r[j]) && r[i].off + r[i].len <= s.size && r[j].off + r[j].len <= s.size
  {
    ExecInv(s, run);
    var r := Exec(s, run);
    PackedOrder(r.regions, r.off, i);
    PackedOrder(r.regions, r.off, j);
  }

  // ---------------------------------------------------------------- the wrap is real

  /** A whole allocation by thread `t` alone. */
  function Alloc(t: nat, bytes: nat): seq<Label> { [Call(t, bytes), Step(t, false), Step(t, false)] }

  /** An allocation that runs alone returns the block at the offset, and moves the offset past it, if the sum as
      `size_t` computes it does not exceed the size; otherwise it throws and changes nothing. */
  lemma AllocAlone(s: State, t: nat, bytes: nat)
    requires t < |s.threads| && AtRest(s.threads[t].pc)
    ensures var r := Exec(s, Alloc(t, bytes)); var sum := Bumped(s.off, bytes);
            if sum <= s.size then
              r == State(s.size, sum, s.regions + [Region(s.off, bytes)], s.threads[t := Local(Got, bytes, s.off)])
            else r == State(s.size, s.off, s.regions, s.threads[t := Local(Threw, bytes, s.off)])
  {
    var run := Alloc(t, bytes);
    var s1 := SetLocal(s, t, Local(Load, bytes, 0));
    assert Next(s, run[0]) == s1;
    var s2 := SetLocal(s, t, Check(Local(Load, bytes, 0), s.off, s.size));
    assert Next(s1, run[1]) == s2;
    assert run[1..][1..] == [Step(t, false)] && [Step(t, false)][1..] == [];
    assert Exec(s, run) == Exec(s1, run[1..]);
    assert Exec(s1, run[1..]) == Exec(s2, [Step(t, false)]);
    assert Exec(s2, [Step(t, false)]) == Exec(Next(s2, Step(t, false)), []);
  }

  lemma {:induction false} ExecSplit(s: State, a: seq<Label>, b: seq<Label>)
    ensures Exec(s, a + b) == Exec(Exec(s, a), b)
    decreases |a|
  {
    if a == [] {
      assert a + b == b;
    } else {
      ExecSplit(Next(s, a[0]), a[1..], b);
      assert (a + b)[1..] == a[1..] + b;
    }
  }

  /** All blocks lie inside the arena. */
  ghost predicate Inside(s: State) {
    forall i :: 0 <= i < |s.regions| ==> s.regions[i].off + s.regions[i].len <= s.size
  }

  /** Requests of at most `b` bytes are safe on an arena of `size` bytes: no run returns a block that
      reaches beyond it. */
  ghost predicate SafeRequests(size: nat, b: nat) {
    forall s: State, run: seq<Label> ::
      Init(s) && s.size == size && (forall k :: 0 <= k < |run| && run[k].Call? ==> run[k].bytes <= b)
      ==> Inside(Exec(s, run))
  }

  /** The bounds check is sound exactly for requests that cannot wrap: once the arena is used up, a request
      of `2^64 - size` bytes passes the check and is granted. A vector of bytes has at most 2^63 - 1. */
  lemma RequestsExactly(size: nat, b: nat)
    requires 0 < size < WORD / 2
    ensures SafeRequests(size, b) <==> b + size < WORD
  {
    if b + size < WORD {
      forall s: State, run: seq<Label> |
        Init(s) && s.size == size && forall k :: 0 <= k < |run| && run[k].Call? ==> run[k].bytes <= b
        ensures Inside(Exec(s, run))
      {
        ExecInv(s, run);
        PackedInside(Exec(s, run));
      }
    } else {
      var s, run := WrapGranted(size);
      assert Init(s) && forall k :: 0 <= k < |run| && run[k].Call? ==> run[k].bytes <= b;
    }
  }

  lemma PackedInside(s: State)
    requires Inv(s)
    ensures Inside(s)
  {
    forall i | 0 <= i < |s.regions|
      ensures s.regions[i].off + s.regions[i].len <= s.size
    {
      PackedOrder(s.regions, s.off, i);
    }
  }

  /** Two requests that use up the arena and then wrap the sum. */
  lemma WrapGranted(size: nat) returns (s: State, run: seq<Label>)
    requires 0 < size < WORD / 2
    ensures Init(s) && s.size == size && !Inside(Exec(s, run))
    ensures forall k :: 0 <= k < |run| && run[k].Call? ==> run[k].bytes <= WORD - size
  {
    s := State(size, 0, [], [Local(Idle, 0, 0)]);
    var x := Granted(s, size);
    var y := Granted(Exec(s, x), WORD - size);
    run := x + y;
    ExecSplit(s, x, y);
    assert Exec(s, run).regions[1] == Region(size, WORD - size);
  }

  lemma Granted(s: State, bytes: nat) returns (run: seq<Label>)
    requires |s.threads| == 1 && AtRest(s.threads[0].pc) && Bumped(s.off, bytes) <= s.size
    ensures Exec(s, run) ==
              State(s.size, Bumped(s.off, bytes), s.regions + [Region(s.off, bytes)], [Local(Got, bytes, s.off)])
    ensures forall k :: 0 <= k < |run| && run[k].Call? ==> run[k].bytes == bytes
  {
    run := Alloc(0, bytes);
    AllocAlone(s, 0, bytes);
  }

  // ---------------------------------------------------------------- addresses

  /** `get`: the address of an offset, 0 standing for null; `getOffset`: SIZE_MAX outside the arena. */
  function Get(base: nat, size: nat, offset: nat): nat { if offset >= size then 0 else base + offset }

  function GetOffset(base: nat, size: nat, p: nat): nat { if p < base || p >= base + size then WORD - 1 else p - base }

  /** The two are inverse on the arena, and each recognises exactly what lies outside. */
  lemma AddressRoundTrip(base: nat, size: nat, p: nat, o: nat)
    requires 0 < base && base + size <= WORD
    ensures base <= p < base + size ==> Get(base, size, GetOffset(base, size, p)) == p
    ensures o < size ==> GetOffset(base, size, Get(base, size, o)) == o
    ensures Get(base, size, o) == 0 <==> o >= size
    ensures GetOffset(base, size, p) == WORD - 1 <==> !(base <= p < base + size)
  {
  }

  // ---------------------------------------------------------------- from any point of an allocation

  function Steps(t: nat, k: nat): seq<Label> {
    if k == 0 then [] else [Step(t, false)] + Steps(t, k - 1)
  }

  lemma StepsUnfold(s: State, t: nat, k: nat)
    ensures Exec(s, Steps(t, k + 1)) == Exec(Next(s, Step(t, false)), Steps(t, k))
  {
    assert Steps(t, k + 1)[0] == Step(t, false) && Steps(t, k + 1)[1..] == Steps(t, k);
  }

  /** The outcome that the current offset decides: the block, or the exception. */
  ghost predicate Decided(s: State, t: nat, r: State)
    requires t < |s.threads|
  {
    var b := s.threads[t].bytes;
    && r.size == s.size && t < |r.threads|
    && if s.off + b <= s.size then
         && r.threads[t] == Local(Got, b, s.off) && r.off == s.off + b && r.regions == s.regions + [Region(s.off, b)]
       else r.threads[t].pc == Threw && r.off == s.off && r.regions == s.regions
  }

  /** The first of its own actions decides, or leaves it ready to exchange the current offset. */
  lemma OneTry(s: State, t: nat)
    requires Inv(s) && t < |s.threads| && s.threads[t].pc in {Load, Cas}
    ensures var r := Next(s, Step(t, false));
            || (Decided(s, t, r) && AtRest(r.threads[t].pc))
            || (r == SetLocal(s, t, Local(Cas, s.threads[t].bytes, s.off)) && s.off + s.threads[t].bytes <= s.size)
  {
  }

  /** The exchange of the current offset succeeds. */
  lemma Exchanged(s: State, t: nat, s1: State)
    requires Inv(s) && t < |s.threads| && s.off + s.threads[t].bytes <= s.size
    requires s1 == SetLocal(s, t, Local(Cas, s.threads[t].bytes, s.off))
    ensures Decided(s, t, Next(s1, Step(t, false))) && AtRest(Next(s1, Step(t, false)).threads[t].pc)
  {
  }

  /** An action after which the call has returned, and any more. */
  lemma LastAction(s: State, t: nat, k: nat)
    requires k >= 1 && t < |Next(s, Step(t, false)).threads| && AtRest(Next(s, Step(t, false)).threads[t].pc)
    ensures Exec(s, Steps(t, k)) == Next(s, Step(t, false))
  {
    StepsUnfold(s, t, k - 1);
    RestStays(Next(s, Step(t, false)), t, k - 1);
  }

  /** Obstruction freedom: from any point of an allocation, however stale the offset it has read, two actions of its own
      are enough to return the block at the current offset, or to throw exactly if that block does not fit. */
  lemma FinishesAlone(s: State, t: nat, k: nat)
    requires Inv(s) && t < |s.threads| && s.threads[t].pc in {Load, Cas} && k >= 2
    ensures Decided(s, t, Exec(s, Steps(t, k)))
  {
    var s1 := Next(s, Step(t, false));
    OneTry(s, t);
    if Decided(s, t, s1) && AtRest(s1.threads[t].pc) {
      LastAction(s, t, k);
    } else {
      Exchanged(s, t, s1);
      LastAction(s1, t, k - 1);
      StepsUnfold(s, t, k - 1);
    }
  }

  lemma {:induction false} RestStays(s: State, t: nat, k: nat)
    requires t < |s.threads| && AtRest(s.threads[t].pc)
    ensures Exec(s, Steps(t, k)) == s
    decreases k
  {
    if k > 0 {
      StepsUnfold(s, t, k - 1);
      assert Next(s, Step(t, false)) == s;
      RestStays(s, t, k - 1);
    }
  }
}

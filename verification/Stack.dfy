/** The array-backed lock-free stack (include/lockless/array_stack.hpp) as a state machine over
    its single atomic actions: two Treiber lists, data and free, threaded through one `next` array. */
module Stack {
  import opened Options

  /** UINT32_MAX, the null index; and the number of 32-bit tags. */
  const NULL: nat := 0xFFFF_FFFF
  const TAGS: nat := 0x1_0000_0000

  /** An unpacked head word: 32-bit index, 32-bit tag. */
  datatype Head = Head(index: nat, tag: nat)

  /** One list. `ver` counts the successful CASes on the head without wrapping, and `list` is the
      list itself, bottom first; both are history that no action tests. */
  datatype Top = Top(head: Head, ver: nat, list: seq<nat>)

  datatype Which = DataList | FreeList

  datatype Op<T> = TryPush(v: T) | TryPop

  /** The next action of a thread. PopLoad, PopNext, PopCas are `pop_index`; Own is the access to
      the data of the node just popped; PushLoad, PushStore, PushCas are `push_index`; Won and Lost are
      returns. */
  datatype PC = Idle | PopLoad | PopNext | PopCas | Own | PushLoad | PushStore | PushCas | Won | Lost

  /** Program counter and locals. `ver` is the version of the head last read into `seen`, and `lin` the
      abstract top at the thread's successful pop; both are history. */
  datatype Local<T> =
    Local(op: Op<T>, pc: PC, seen: Head, ver: nat, nxt: nat, idx: nat, out: Option<T>, lin: Option<T>)

  /** Where a node is: at a depth of a list, or in the hands of a thread. */
  datatype Loc = In(w: Which, i: nat) | Owned(t: nat)

  datatype State<T> = State(
    next: seq<nat>, data: seq<T>, top: Top, free: Top, loc: seq<Loc>, threads: seq<Local<T>>)

  datatype Label<T> = Call(t: nat, op: Op<T>) | Step(t: nat, spurious: bool)

  function Get<T>(s: State<T>, w: Which): Top {
    if w == DataList then s.top else s.free
  }

  function Put<T>(s: State<T>, w: Which, top: Top): State<T> {
    if w == DataList then s.(top := top) else s.(free := top)
  }

  /** A push takes its node from the free list and gives it to the data list; a pop the other way. */
  function From<T>(op: Op<T>): Which { if op.TryPush? then FreeList else DataList }

  function To<T>(op: Op<T>): Which { if op.TryPush? then DataList else FreeList }

  function SetLocal<T>(s: State<T>, t: nat, l: Local<T>): State<T>
    requires t < |s.threads|
  {
    s.(threads := s.threads[t := l])
  }

  /** The head word after a CAS: the tag advances modulo 2^32. */
  function Bump(index: nat, seen: Head): Head { Head(index, (seen.tag + 1) % TAGS) }

  function DropTop<T>(list: seq<T>): seq<T> { if list == [] then [] else list[..|list| - 1] }

  predicate WellShaped<T>(s: State<T>) {
    |s.next| >= 1 && |s.data| == |s.next| && |s.loc| == |s.next|
  }

  /** The value on top of the abstract stack. */
  function Peek<T>(s: State<T>): Option<T> {
    var list := s.top.list;
    if list != [] && list[|list| - 1] < |s.data| then Some(s.data[list[|list| - 1]]) else None
  }

  /** What `pop_index` does with a head it has just read. */
  function Read<T>(l: Local<T>, top: Top): Local<T> {
    l.(seen := top.head, ver := top.ver, pc := if top.head.index == NULL then Lost else PopNext)
  }

  /** One atomic action of thread `t`. */
  function Act<T>(s: State<T>, t: nat, spurious: bool): State<T>
    requires WellShaped(s) && t < |s.threads|
  {
    var l := s.threads[t];
    var from, to := Get(s, From(l.op)), Get(s, To(l.op));
    match l.pc
    case PopLoad => SetLocal(s, t, Read(l, from))
    case PopNext =>
      if l.seen.index < |s.next| then SetLocal(s, t, l.(nxt := s.next[l.seen.index], pc := PopCas)) else s
    case PopCas =>
      if from.head == l.seen && !spurious && l.seen.index < |s.next| then
        var l' := l.(idx := l.seen.index, lin := Peek(s), pc := Own);
        Put(SetLocal(s, t, l'), From(l.op), Top(Bump(l.nxt, l.seen), from.ver + 1, DropTop(from.list)))
        .(loc := s.loc[l.seen.index := Owned(t)])
      else SetLocal(s, t, Read(l, from))
    case Own =>
      if l.idx >= |s.data| then s
      else (match l.op
            case TryPush(v) => SetLocal(s, t, l.(pc := PushLoad)).(data := s.data[l.idx := v])
            case TryPop => SetLocal(s, t, l.(pc := PushLoad, out := Some(s.data[l.idx]))))
    case PushLoad => SetLocal(s, t, l.(seen := to.head, ver := to.ver, pc := PushStore))
    case PushStore =>
      if l.idx < |s.next| then SetLocal(s, t, l.(pc := PushCas)).(next := s.next[l.idx := l.seen.index]) else s
    case PushCas =>
      if to.head == l.seen && !spurious && l.idx < |s.next| then
        Put(SetLocal(s, t, l.(pc := Won)), To(l.op), Top(Bump(l.idx, l.seen), to.ver + 1, to.list + [l.idx]))
        .(loc := s.loc[l.idx := In(To(l.op), |to.list|)])
      else SetLocal(s, t, l.(seen := to.head, ver := to.ver, pc := PushStore))
    case _ => s
  }

  predicate AtRest(pc: PC) { pc in {Idle, Won, Lost} }

  function Fresh<T>(op: Op<T>): Local<T> { Local(op, PopLoad, Head(0, 0), 0, 0, 0, None, None) }

  function Next<T>(s: State<T>, a: Label<T>): State<T>
    requires WellShaped(s)
  {
    match a
    case Call(t, op) =>
      if t < |s.threads| && AtRest(s.threads[t].pc) then SetLocal(s, t, Fresh(op)) else s
    case Step(t, spurious) => if t < |s.threads| then Act(s, t, spurious) else s
  }

  lemma NextShape<T>(s: State<T>, a: Label<T>)
    requires WellShaped(s)
    ensures WellShaped(Next(s, a)) && |Next(s, a).next| == |s.next|
    ensures |Next(s, a).threads| == |s.threads|
  {
  }

  function Exec<T>(s: State<T>, run: seq<Label<T>>): (r: State<T>)
    requires WellShaped(s)
    ensures WellShaped(r)
    decreases |run|
  {
    if run == [] then s else NextShape(s, run[0]); Exec(Next(s, run[0]), run[1..])
  }

  /** The state the constructor leaves: all nodes chained 0 -> 1 -> ... on the free list. */
  predicate Init<T>(s: State<T>) {
    var c := |s.next|;
    && WellShaped(s) && c <= NULL
    && s.top == Top(Head(NULL, 0), 0, [])
    && s.free.head == Head(0, 0) && s.free.ver == 0 && |s.free.list| == c
    && (forall k :: 0 <= k < c ==> s.free.list[k] == c - 1 - k)
    && (forall k :: 0 <= k < c ==> s.loc[k] == In(FreeList, c - 1 - k))
    && (forall k :: 0 <= k < c - 1 ==> s.next[k] == k + 1) && s.next[c - 1] == NULL
    && forall t :: 0 <= t < |s.threads| ==> s.threads[t].pc == Idle
  }

  /** The packed 64-bit head word, and its two halves. */
  function Pack(h: Head): (raw: nat)
    requires h.index < TAGS && h.tag < TAGS
    ensures Unpack(raw) == h
  {
    h.tag * TAGS + h.index
  }

  function Unpack(raw: nat): Head { Head(raw % TAGS, raw / TAGS) }

  /** Comparing packed words compares index and tag. */
  lemma PackFaithful(h: Head, g: Head)
    requires h.index < TAGS && h.tag < TAGS && g.index < TAGS && g.tag < TAGS
    ensures Pack(h) == Pack(g) <==> h == g
    ensures Pack(h) < TAGS * TAGS
  {
  }
}

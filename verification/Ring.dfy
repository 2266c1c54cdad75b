/** The bounded multi-producer multi-consumer queue (include/lockless/ring_buffer.hpp)
    as a state machine over its single atomic actions, for any number of threads. */
module Ring {
  import opened Options
  import opened Arith

  /** A call in progress: `try_push(item)` or `try_pop`. */
  datatype Op<T> = Push(item: T) | Pop

  /** The next action of a thread.
      Load: read the counter; Seq: read the slot's sequence number; Cas: claim the position;
      Reload: read the counter again; Data: copy the item; Store: publish or release the slot;
      Won and Lost: the call returned true or false. */
  datatype PC = Idle | Load | Seq | Cas | Reload | Data | Store | Won | Lost

  /** Program counter and locals of one thread. `start` is the first value it read from its
      counter and `retries` counts its retries not caused by a spurious CAS failure; both are
      history variables that no action tests. */
  datatype Local<T> = Local(op: Op<T>, pc: PC, start: nat, pos: nat, retries: nat, out: Option<T>)

  /** Shared memory plus history: `log[p]` is the item claimed for position `p`, `holder[i]` the
      thread that last claimed slot `i`. */
  datatype State<T> = State(
    seqs: seq<nat>, buf: seq<T>, head: nat, tail: nat,
    log: seq<T>, holder: seq<nat>, threads: seq<Local<T>>)
  {
    function Size(): nat { |seqs| }
  }

  /** One scheduler choice. `spurious` makes a weak compare-exchange fail although it could succeed. */
  datatype Label<T> = Call(t: nat, op: Op<T>) | Step(t: nat, spurious: bool)

  /** The counter an operation competes for: `head_` for a push, `tail_` for a pop. */
  function Counter<T>(s: State<T>, op: Op<T>): nat {
    if op.Push? then s.head else s.tail
  }

  /** The sequence number that lets an operation claim position `pos`. */
  function Expected<T>(op: Op<T>, pos: nat): nat {
    if op.Push? then pos else pos + 1
  }

  /** The sequence number an operation leaves behind. */
  function Released<T>(op: Op<T>, pos: nat, n: nat): nat {
    if op.Push? then pos + 1 else pos + n
  }

  function SetLocal<T>(s: State<T>, t: nat, l: Local<T>): State<T>
    requires t < |s.threads|
  {
    s.(threads := s.threads[t := l])
  }

  predicate WellShaped<T>(s: State<T>) {
    |s.seqs| >= 1 && |s.buf| == |s.seqs| && |s.holder| == |s.seqs|
  }

  /** One atomic action of thread `t`; a thread that is not inside a call does nothing. */
  function Act<T>(s: State<T>, t: nat, spurious: bool): State<T>
    requires WellShaped(s) && t < |s.threads|
  {
    var l := s.threads[t];
    var n := s.Size();
    var i := Slot(l.pos, n);
    var c := Counter(s, l.op);
    match l.pc
    case Load => SetLocal(s, t, l.(pc := Seq, start := c, pos := c, retries := 0))
    case Seq =>
      var e := Expected(l.op, l.pos);
      SetLocal(s, t, l.(pc := if s.seqs[i] == e then Cas else if s.seqs[i] < e then Lost else Reload))
    case Cas =>
      if c == l.pos && !spurious then
        var s1 := SetLocal(s, t, l.(pc := Data)).(holder := s.holder[i := t]);
        match l.op
        case Push(x) => s1.(head := s.head + 1, log := s.log + [x])
        case Pop => s1.(tail := s.tail + 1)
      else
        SetLocal(s, t, l.(pc := Seq, pos := c, retries := l.retries + if c == l.pos then 0 else 1))
    case Reload => SetLocal(s, t, l.(pc := Seq, pos := c, retries := l.retries + 1))
    case Data =>
      (match l.op
       case Push(x) => SetLocal(s, t, l.(pc := Store)).(buf := s.buf[i := x])
       case Pop => SetLocal(s, t, l.(pc := Store, out := Some(s.buf[i]))))
    case Store =>
      SetLocal(s, t, l.(pc := Won)).(seqs := s.seqs[i := Released(l.op, l.pos, n)])
    case _ => s
  }

  predicate AtRest(pc: PC) { pc in {Idle, Won, Lost} }

  function Next<T>(s: State<T>, a: Label<T>): State<T>
    requires WellShaped(s)
  {
    match a
    case Call(t, op) =>
      if t < |s.threads| && AtRest(s.threads[t].pc)
      then SetLocal(s, t, Local(op, Load, 0, 0, 0, None)) else s
    case Step(t, spurious) => if t < |s.threads| then Act(s, t, spurious) else s
  }

  lemma NextShape<T>(s: State<T>, a: Label<T>)
    requires WellShaped(s)
    ensures WellShaped(Next(s, a)) && Next(s, a).Size() == s.Size()
    ensures |Next(s, a).threads| == |s.threads|
  {
  }

  /** The state after a whole run, for any schedule. */
  function Exec<T>(s: State<T>, run: seq<Label<T>>): (r: State<T>)
    requires WellShaped(s)
    ensures WellShaped(r)
    decreases |run|
  {
    if run == [] then s else NextShape(s, run[0]); Exec(Next(s, run[0]), run[1..])
  }

  /** The state the constructor leaves, with all threads outside any call. */
  predicate Init<T>(s: State<T>) {
    && WellShaped(s)
    && (forall i :: 0 <= i < s.Size() ==> s.seqs[i] == i)
    && s.head == 0 && s.tail == 0 && s.log == []
    && forall t :: 0 <= t < |s.threads| ==> s.threads[t].pc == Idle
  }
}

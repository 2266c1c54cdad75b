/** The zero-copy queue (include/lockless/message_queue.hpp): arena blocks prepared by producers and passed
    through the ring buffer as handles, all concurrently. */
module ZeroCopy {
  import R = Ring
  import RI = RingInv
  import RT = RingTheorems
  import F = Fifo
  import A = Arena
  import Arith

  /** A message handle. `id` is history: which block it names. */
  datatype Handle = Handle(offset: nat, size: nat, id: nat)

  /** A block is with its producer, in a push that has not taken effect, or enqueued at a position. */
  datatype Where = WithProducer | Sending(t: nat) | Enqueued(p: nat)

  datatype State = State(ring: R.State<Handle>, arena: A.State, at: seq<Where>)

  /** Arena actions; the start of `push_message` on a block the client holds; of `pop_message`; and actions
      of either inside the ring buffer. */
  datatype Label =
    | Prepare(a: A.Label) | PushMessage(t: nat, id: nat) | PopMessage(t: nat) | Step(t: nat, spurious: bool)

  function HandleOf(arena: A.State, id: nat): Handle
    requires id < |arena.regions|
  {
    Handle(arena.regions[id].off, arena.regions[id].len, id)
  }

  /** The client holds the block, and `get_offset` accepts its address (Arena.AddressRoundTrip): an empty block at
      the very end is refused, since its address is one past the arena. */
  predicate Pushable(s: State, id: nat) {
    && id < |s.at| && id < |s.arena.regions| && s.at[id] == WithProducer
    && s.arena.regions[id].off < s.arena.size
  }

  /** The ring buffer's part of a choice. */
  function RingLabels(s: State, a: Label): seq<R.Label<Handle>> {
    match a
    case Prepare(_) => []
    case PushMessage(t, id) =>
      if Pushable(s, id) && t < |s.ring.threads| && R.AtRest(s.ring.threads[t].pc)
      then [R.Call(t, R.Push(HandleOf(s.arena, id)))] else []
    case PopMessage(t) => [R.Call(t, R.Pop)]
    case Step(t, spurious) => [R.Step(t, spurious)]
  }

  /** Where the blocks are after thread `t` went from `l` to `l'`. */
  function Relocate(at: seq<Where>, l: R.Local<Handle>, l': R.Local<Handle>, head: nat): seq<Where> {
    if l.op.Push? && l.op.item.id < |at| then
      if l.pc == R.Cas && l'.pc == R.Data then at[l.op.item.id := Enqueued(head)]
      else if l.pc == R.Seq && l'.pc == R.Lost then at[l.op.item.id := WithProducer]
      else at
    else at
  }

  function Next(s: State, a: Label): State
    requires R.WellShaped(s.ring)
  {
    match a
    case Prepare(x) =>
      var arena' := A.Next(s.arena, x);
      s.(arena := arena', at := if |arena'.regions| > |s.at| then s.at + [WithProducer] else s.at)
    case PushMessage(t, id) =>
      var call := RingLabels(s, a);
      if call == [] then s else s.(ring := R.Next(s.ring, call[0]), at := s.at[id := Sending(t)])
    case PopMessage(t) => s.(ring := R.Next(s.ring, R.Call(t, R.Pop)))
    case Step(t, spurious) =>
      if t >= |s.ring.threads| then s
      else
        var ring' := R.Act(s.ring, t, spurious);
        s.(ring := ring', at := Relocate(s.at, s.ring.threads[t], ring'.threads[t], s.ring.head))
  }

  // ---------------------------------------------------------------- invariant

  /** The handle names its block: it has the offset and the size that `allocate` returned for it. */
  ghost predicate Names(s: State, h: Handle) {
    && h.id < |s.arena.regions|
    && h.offset == s.arena.regions[h.id].off && h.size == s.arena.regions[h.id].len
  }

  predicate Sends(l: R.Local<Handle>) {
    l.op.Push? && l.pc in {R.Load, R.Seq, R.Cas, R.Reload}
  }

  ghost predicate LogOk(s: State, p: nat)
    requires p < |s.ring.log|
  {
    var h := s.ring.log[p];
    Names(s, h) && h.id < |s.at| && s.at[h.id] == Enqueued(p)
  }

  ghost predicate SenderOk(s: State, t: nat)
    requires t < |s.ring.threads|
  {
    var l := s.ring.threads[t];
    Sends(l) ==> Names(s, l.op.item) && l.op.item.id < |s.at| && s.at[l.op.item.id] == Sending(t)
  }

  /** A block is where `at` says. */
  ghost predicate BlockOk(s: State, id: nat)
    requires id < |s.at|
  {
    match s.at[id]
    case WithProducer => true
    case Sending(t) => t < |s.ring.threads| && Sends(s.ring.threads[t]) && s.ring.threads[t].op.item.id == id
    case Enqueued(p) => p < |s.ring.log| && s.ring.log[p].id == id
  }

  ghost predicate Messages(s: State) {
    && |s.at| == |s.arena.regions|
    && (forall id {:trigger s.at[id]} :: 0 <= id < |s.at| ==> BlockOk(s, id))
    && (forall p {:trigger s.ring.log[p]} :: 0 <= p < |s.ring.log| ==> LogOk(s, p))
    && (forall t {:trigger s.ring.threads[t]} :: 0 <= t < |s.ring.threads| ==> SenderOk(s, t))
  }

  ghost predicate Inv(s: State) {
    RI.Inv(s.ring) && A.Inv(s.arena) && Messages(s)
  }

  lemma InitInv(s: State)
    requires R.Init(s.ring) && s.ring.Size() >= 2 && A.Init(s.arena) && s.arena.size < Arith.WORD && s.at == []
    ensures Inv(s)
  {
    RI.InitInv(s.ring);
    forall t | 0 <= t < |s.ring.threads| ensures SenderOk(s, t) { assert s.ring.threads[t].pc == R.Idle; }
  }

  lemma PrepareInv(s: State, a: A.Label)
    requires Inv(s) && A.ModestLabel(a, s.arena.size)
    ensures Inv(Next(s, Prepare(a)))
  {
    A.NextInv(s.arena, a);
    var s' := Next(s, Prepare(a));
    forall p | 0 <= p < |s.ring.log| ensures LogOk(s', p) { assert LogOk(s, p); }
    forall t | 0 <= t < |s.ring.threads| ensures SenderOk(s', t) { assert SenderOk(s, t); }
    forall id | 0 <= id < |s'.at| ensures BlockOk(s', id) { if id < |s.at| { assert BlockOk(s, id); } }
  }

  /** Only thread `t` moved in the ring and the arena is as it was. */
  ghost predicate Moved(s: State, s': State, t: nat) {
    && s'.arena == s.arena && |s'.at| == |s.at|
    && t < |s.ring.threads| == |s'.ring.threads|
    && forall u :: 0 <= u < |s.ring.threads| && u != t ==> s'.ring.threads[u] == s.ring.threads[u]
  }

  /** A thread starts sending block `id`. */
  lemma StartMessages(s: State, s': State, t: nat, id: nat)
    requires Messages(s) && Moved(s, s', t) && s'.ring.log == s.ring.log && id < |s.at| && s.at[id] == WithProducer
    requires s'.at == s.at[id := Sending(t)] && s'.ring.threads[t].op == R.Push(HandleOf(s.arena, id))
    requires !Sends(s.ring.threads[t]) && Sends(s'.ring.threads[t])
    ensures Messages(s')
  {
    forall p | 0 <= p < |s'.ring.log| ensures LogOk(s', p) { assert LogOk(s, p); }
    forall u | 0 <= u < |s'.ring.threads| ensures SenderOk(s', u) { assert SenderOk(s, u); }
    forall b | 0 <= b < |s'.at| ensures BlockOk(s', b) { assert BlockOk(s, b); }
  }

  /** A push takes effect: its block becomes the last position of the log. */
  lemma EnqueueMessages(s: State, s': State, t: nat)
    requires Messages(s) && Moved(s, s', t) && Sends(s.ring.threads[t]) && !Sends(s'.ring.threads[t])
    requires s'.ring.log == s.ring.log + [s.ring.threads[t].op.item] && s.ring.threads[t].op.item.id < |s.at|
    requires s'.at == s.at[s.ring.threads[t].op.item.id := Enqueued(|s.ring.log|)]
    ensures Messages(s')
  {
    assert SenderOk(s, t);
    forall p | 0 <= p < |s'.ring.log| ensures LogOk(s', p) {
      if p < |s.ring.log| { assert LogOk(s, p); }
    }
    forall u | 0 <= u < |s'.ring.threads| ensures SenderOk(s', u) { assert SenderOk(s, u); }
    forall b | 0 <= b < |s'.at| ensures BlockOk(s', b) { assert BlockOk(s, b); }
  }

  /** A push is refused: the block is its producer's again. */
  lemma RefuseMessages(s: State, s': State, t: nat)
    requires Messages(s) && Moved(s, s', t) && Sends(s.ring.threads[t]) && !Sends(s'.ring.threads[t])
    requires s'.ring.log == s.ring.log && s.ring.threads[t].op.item.id < |s.at|
    requires s'.at == s.at[s.ring.threads[t].op.item.id := WithProducer]
    ensures Messages(s')
  {
    assert SenderOk(s, t);
    forall p | 0 <= p < |s'.ring.log| ensures LogOk(s', p) { assert LogOk(s, p); }
    forall u | 0 <= u < |s'.ring.threads| ensures SenderOk(s', u) { assert SenderOk(s, u); }
    forall b | 0 <= b < |s'.at| ensures BlockOk(s', b) { assert BlockOk(s, b); }
  }

  lemma QuietMessages(s: State, s': State, t: nat)
    requires Messages(s) && Moved(s, s', t) && s'.ring.log == s.ring.log && s'.at == s.at
    requires Sends(s'.ring.threads[t]) == Sends(s.ring.threads[t])
    requires Sends(s'.ring.threads[t]) ==> s'.ring.threads[t].op == s.ring.threads[t].op
    ensures Messages(s')
  {
    forall p | 0 <= p < |s'.ring.log| ensures LogOk(s', p) { assert LogOk(s, p); }
    forall u | 0 <= u < |s'.ring.threads| ensures SenderOk(s', u) { assert SenderOk(s, u); }
    forall b | 0 <= b < |s'.at| ensures BlockOk(s', b) { assert BlockOk(s, b); }
  }

  /** What an action of thread `t` does to the log and to its own call. */
  lemma StepKinds(s: R.State<Handle>, t: nat, spurious: bool)
    requires RI.Inv(s) && t < |s.threads|
    ensures var s' := R.Act(s, t, spurious);
            && |s'.threads| == |s.threads|
            && (forall u :: 0 <= u < |s.threads| && u != t ==> s'.threads[u] == s.threads[u])
            && var l, l' := s.threads[t], s'.threads[t];
            && l'.op == l.op && s.head == |s.log| && (Sends(l') ==> Sends(l))
            && (Sends(l) && !Sends(l') ==> (l.pc == R.Cas && l'.pc == R.Data) || (l.pc == R.Seq && l'.pc == R.Lost))
            && s'.log == s.log + if l.op.Push? && l.pc == R.Cas && l'.pc == R.Data then [l.op.item] else []
  {
  }

  lemma StepMessages(s: State, t: nat, spurious: bool)
    requires RI.Inv(s.ring) && Messages(s) && t < |s.ring.threads|
    ensures Messages(Next(s, Step(t, spurious)))
  {
    var s' := Next(s, Step(t, spurious));
    var l, l' := s.ring.threads[t], s'.ring.threads[t];
    StepKinds(s.ring, t, spurious);
    assert SenderOk(s, t);
    if l.op.Push? && l.pc == R.Cas && l'.pc == R.Data {
      EnqueueMessages(s, s', t);
    } else if l.op.Push? && l.pc == R.Seq && l'.pc == R.Lost {
      RefuseMessages(s, s', t);
    } else {
      QuietMessages(s, s', t);
    }
  }

  lemma StepInv(s: State, t: nat, spurious: bool)
    requires Inv(s) && t < |s.ring.threads|
    ensures Inv(Next(s, Step(t, spurious)))
  {
    RI.ActInv(s.ring, t, spurious);
    StepMessages(s, t, spurious);
  }

  /** Every choice of every thread keeps the invariant. */
  lemma NextInv(s: State, a: Label)
    requires Inv(s) && (a.Prepare? ==> A.ModestLabel(a.a, s.arena.size))
    ensures Inv(Next(s, a)) && Next(s, a).arena.size == s.arena.size
  {
    match a
    case Prepare(x) =>
      PrepareInv(s, x);
      A.NextInv(s.arena, x);
    case PushMessage(t, id) =>
      var call := RingLabels(s, a);
      if call != [] {
        RI.NextInv(s.ring, call[0]);
        StartMessages(s, Next(s, a), t, id);
      }
    case PopMessage(t) =>
      RI.NextInv(s.ring, R.Call(t, R.Pop));
      if t < |s.ring.threads| { QuietMessages(s, Next(s, a), t); }
    case Step(t, spurious) => if t < |s.ring.threads| { StepInv(s, t, spurious); }
  }

  // ---------------------------------------------------------------- whole runs

  predicate ModestRun(run: seq<Label>, size: nat) {
    forall i :: 0 <= i < |run| && run[i].Prepare? ==> A.ModestLabel(run[i].a, size)
  }

  lemma NextShape(s: State, a: Label)
    requires R.WellShaped(s.ring)
    ensures R.WellShaped(Next(s, a).ring) && |Next(s, a).ring.threads| == |s.ring.threads|
  {
    if a.Step? { R.NextShape(s.ring, R.Step(a.t, a.spurious)); }
  }

  function Exec(s: State, run: seq<Label>): (r: State)
    requires R.WellShaped(s.ring)
    ensures R.WellShaped(r.ring)
    decreases |run|
  {
    if run == [] then s else NextShape(s, run[0]); Exec(Next(s, run[0]), run[1..])
  }

  /** The ring buffer's part of a run. */
  function RingRun(s: State, run: seq<Label>): seq<R.Label<Handle>>
    requires R.WellShaped(s.ring)
    decreases |run|
  {
    if run == [] then []
    else NextShape(s, run[0]); RingLabels(s, run[0]) + RingRun(Next(s, run[0]), run[1..])
  }

  lemma {:induction false} ExecInv(s: State, run: seq<Label>)
    requires Inv(s) && ModestRun(run, s.arena.size)
    ensures Inv(Exec(s, run)) && Exec(s, run).arena.size == s.arena.size
    decreases |run|
  {
    if run != [] {
      NextInv(s, run[0]);
      ExecInv(Next(s, run[0]), run[1..]);
    }
  }

  lemma RingPart(s: State, a: Label)
    requires R.WellShaped(s.ring)
    ensures R.Exec(s.ring, RingLabels(s, a)) == Next(s, a).ring
  {
    var ls := RingLabels(s, a);
    if ls != [] {
      assert ls[1..] == [];
      R.NextShape(s.ring, ls[0]);
      assert R.Exec(s.ring, ls) == R.Exec(R.Next(s.ring, ls[0]), []);
    }
  }

  lemma {:induction false} RingSplit(s: R.State<Handle>, a: seq<R.Label<Handle>>, b: seq<R.Label<Handle>>)
    requires R.WellShaped(s)
    ensures R.Exec(s, a + b) == R.Exec(R.Exec(s, a), b)
    decreases |a|
  {
    if a == [] {
      assert a + b == b;
    } else {
      R.NextShape(s, a[0]);
      RingSplit(R.Next(s, a[0]), a[1..], b);
      assert (a + b)[1..] == a[1..] + b;
    }
  }

  lemma {:induction false} RingFollows(s: State, run: seq<Label>)
    requires R.WellShaped(s.ring)
    ensures R.Exec(s.ring, RingRun(s, run)) == Exec(s, run).ring
    decreases |run|
  {
    if run != [] {
      NextShape(s, run[0]);
      var s1 := Next(s, run[0]);
      RingFollows(s1, run[1..]);
      RingPart(s, run[0]);
      RingSplit(s.ring, RingLabels(s, run[0]), RingRun(s1, run[1..]));
    }
  }

  /** Different positions of the queue carry different, disjoint blocks. */
  lemma PositionsDisjoint(s: State, p: nat, q: nat)
    requires Inv(s) && p < |s.ring.log| && q < |s.ring.log| && p != q
    ensures Separate(s.ring.log[p], s.ring.log[q])
  {
    assert LogOk(s, p) && LogOk(s, q);
    var i, j := s.ring.log[p].id, s.ring.log[q].id;
    assert i != j;
    A.PackedOrder(s.arena.regions, s.arena.off, i);
    A.PackedOrder(s.arena.regions, s.arena.off, j);
  }

  /** Main theorem: whatever runs concurrently, the handles popped over a whole run are, in order, the first ones
      pushed; each still names the block of its producer, inside the arena; and no block is delivered twice, so any two
      handles designate disjoint memory. */
  lemma {:induction false} MessagesDoNotInterfere(s: State, run: seq<Label>)
    requires Inv(s) && R.Init(s.ring) && ModestRun(run, s.arena.size)
    ensures var es := RT.Events(s.ring, RingRun(s, run)); var d := F.Dequeued(es); var r := Exec(s, run);
            && d <= F.Enqueued(es)
            && (forall i :: 0 <= i < |d| ==> Names(r, d[i]) && d[i].offset + d[i].size <= s.arena.size)
            && (forall i, j :: 0 <= i < j < |d| ==> Separate(d[i], d[j]))
  {
    RT.HistoryFromInit(s.ring, RingRun(s, run));
    RingFollows(s, run);
    ExecInv(s, run);
    var r := Exec(s, run);
    var d := F.Dequeued(RT.Events(s.ring, RingRun(s, run)));
    forall i | 0 <= i < |d|
      ensures Names(r, d[i]) && d[i].offset + d[i].size <= s.arena.size
    {
      assert LogOk(r, i);
      A.PackedOrder(r.arena.regions, r.arena.off, d[i].id);
    }
    forall i, j | 0 <= i < j < |d|
      ensures Separate(d[i], d[j])
    {
      PositionsDisjoint(r, i, j);
    }
  }

  /** Two handles of different blocks that share no memory. */
  ghost predicate Separate(h: Handle, k: Handle) {
    h.id != k.id && A.Disjoint(A.Region(h.offset, h.size), A.Region(k.offset, k.size))
  }
}

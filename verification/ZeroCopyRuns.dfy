/** Which messages are enqueued over a run of the zero-copy queue, and what undisturbed calls answer. */
module ZeroCopyRuns {
  import opened Options
  import opened ZeroCopy
  import R = Ring
  import RI = RingInv
  import RT = RingTheorems
  import RA = RingAlone
  import F = Fifo
  import A = Arena

  // ---------------------------------------------------------------- messages in the order of their exchanges

  /** For each thread the block of its latest `push_message` that entered the queue's code. */
  function Asked(s: State, a: Label, asked: map<nat, nat>): map<nat, nat> {
    if a.PushMessage? && RingLabels(s, a) != [] then asked[a.t := a.id] else asked
  }

  /** The block that a choice enqueues: the one its thread was asked to push, if its exchange succeeds. */
  ghost function SentBy(s: State, a: Label, asked: map<nat, nat>): seq<nat>
    requires Inv(s)
  {
    if a.Step? && RT.EventOf(s.ring, R.Step(a.t, a.spurious)).Enq? && a.t in asked then [asked[a.t]] else []
  }

  /** The blocks a run enqueues, in order. */
  ghost function Sent(s: State, run: seq<Label>, asked: map<nat, nat>): seq<nat>
    requires Inv(s) && ModestRun(run, s.arena.size)
    decreases |run|
  {
    if run == [] then []
    else
      NextInv(s, run[0]);
      SentBy(s, run[0], asked) + Sent(Next(s, run[0]), run[1..], Asked(s, run[0], asked))
  }

  function Ids(q: seq<Handle>): (r: seq<nat>)
    ensures |r| == |q| && forall i :: 0 <= i < |q| ==> r[i] == q[i].id
  {
    if q == [] then [] else [q[0].id] + Ids(q[1..])
  }

  lemma {:induction false} IdsSplit(p: seq<Handle>, q: seq<Handle>)
    ensures Ids(p + q) == Ids(p) + Ids(q)
  {
  }

  /** A thread that is sending sends the block it was asked to push. */
  ghost predicate AskedOk(s: State, asked: map<nat, nat>) {
    forall t {:trigger s.ring.threads[t]} :: 0 <= t < |s.ring.threads| && Sends(s.ring.threads[t]) ==>
      t in asked && asked[t] == s.ring.threads[t].op.item.id
  }

  lemma AskedStep(s: State, a: Label, asked: map<nat, nat>)
    requires Inv(s) && AskedOk(s, asked)
    ensures AskedOk(Next(s, a), Asked(s, a, asked))
  {
    if a.Step? && a.t < |s.ring.threads| { StepKinds(s.ring, a.t, a.spurious); }
  }

  /** The event of a choice in the ring buffer enqueues the handle of the block that was asked for. */
  lemma EventSends(s: State, a: Label, asked: map<nat, nat>)
    requires Inv(s) && AskedOk(s, asked) && |RingLabels(s, a)| == 1
    ensures Ids(F.EnqItem(RT.EventOf(s.ring, RingLabels(s, a)[0]))) == SentBy(s, a, asked)
  {
    var e := RT.EventOf(s.ring, RingLabels(s, a)[0]);
    if e.Enq? {
      assert a.Step? && Sends(s.ring.threads[a.t]) && e.x == s.ring.threads[a.t].op.item;
      assert F.EnqItem(e) == [e.x];
    }
  }

  lemma {:induction false} LabelsUnfold(s: State, a: Label, rest: seq<R.Label<Handle>>)
    requires Inv(s) && RI.Inv(Next(s, a).ring)
    ensures var ls := RingLabels(s, a); var es := F.Enqueued(RT.Events(s.ring, ls + rest));
            var later := F.Enqueued(RT.Events(Next(s, a).ring, rest));
            if ls == [] then es == later else es == F.EnqItem(RT.EventOf(s.ring, ls[0])) + later
  {
    var ls := RingLabels(s, a);
    if ls == [] {
      assert ls + rest == rest && Next(s, a).ring == s.ring;
    } else {
      var run := ls + rest;
      assert run[0] == ls[0] && run[1..] == rest;
      RT.EventsUnfold(s.ring, run);
      assert R.Next(s.ring, ls[0]) == Next(s, a).ring;
    }
  }

  /** Main theorem: over every run, the blocks enqueued are exactly those whose `push_message` won its exchange, in the
      order of the exchanges. */
  lemma {:induction false} SentInOrder(s: State, run: seq<Label>, asked: map<nat, nat>)
    requires Inv(s) && ModestRun(run, s.arena.size) && AskedOk(s, asked)
    ensures Ids(F.Enqueued(RT.Events(s.ring, RingRun(s, run)))) == Sent(s, run, asked)
    decreases |run|
  {
    if run != [] {
      var a, s1 := run[0], Next(s, run[0]);
      NextInv(s, a);
      AskedStep(s, a, asked);
      SentInOrder(s1, run[1..], Asked(s, a, asked));
      SentUnfold(s, run, asked);
    }
  }

  lemma {:induction false} SentUnfold(s: State, run: seq<Label>, asked: map<nat, nat>)
    requires Inv(s) && ModestRun(run, s.arena.size) && AskedOk(s, asked) && run != []
    ensures var a, s1 := run[0], Next(s, run[0]);
            && Inv(s1) && ModestRun(run[1..], s1.arena.size)
            && Ids(F.Enqueued(RT.Events(s.ring, RingRun(s, run))))
                 == SentBy(s, a, asked) + Ids(F.Enqueued(RT.Events(s1.ring, RingRun(s1, run[1..]))))
  {
    var a, s1 := run[0], Next(s, run[0]);
    NextInv(s, a);
    RunUnfold(s, run);
    SentFirst(s, a, asked, RingRun(s1, run[1..]));
  }

  /** What the labels of one choice and of the rest enqueue. */
  lemma {:induction false} SentFirst(s: State, a: Label, asked: map<nat, nat>, rest: seq<R.Label<Handle>>)
    requires Inv(s) && AskedOk(s, asked) && RI.Inv(Next(s, a).ring)
    ensures Ids(F.Enqueued(RT.Events(s.ring, RingLabels(s, a) + rest)))
         == SentBy(s, a, asked) + Ids(F.Enqueued(RT.Events(Next(s, a).ring, rest)))
  {
    LabelsUnfold(s, a, rest);
    if RingLabels(s, a) != [] {
      EventSends(s, a, asked);
      IdsSplit(F.EnqItem(RT.EventOf(s.ring, RingLabels(s, a)[0])), F.Enqueued(RT.Events(Next(s, a).ring, rest)));
    }
  }

  lemma {:induction false} RunUnfold(s: State, run: seq<Label>)
    requires R.WellShaped(s.ring) && run != []
    ensures R.WellShaped(Next(s, run[0]).ring)
    ensures Exec(s, run) == Exec(Next(s, run[0]), run[1..])
    ensures RingRun(s, run) == RingLabels(s, run[0]) + RingRun(Next(s, run[0]), run[1..])
  {
    NextShape(s, run[0]);
  }

  // ---------------------------------------------------------------- the arena

  /** The arena's part of a run. */
  function ArenaRun(run: seq<Label>): seq<A.Label> {
    if run == [] then [] else (if run[0].Prepare? then [run[0].a] else []) + ArenaRun(run[1..])
  }

  /** The arena part of any run is a run of the arena: `prepare_message` is `allocate`. */
  lemma {:induction false} ArenaFollows(s: State, run: seq<Label>)
    requires R.WellShaped(s.ring)
    ensures Exec(s, run).arena == A.Exec(s.arena, ArenaRun(run))
    decreases |run|
  {
    if run != [] {
      RunUnfold(s, run);
      ArenaFollows(Next(s, run[0]), run[1..]);
      ArenaStep(s, run[0]);
      ArenaUnfold(s.arena, run);
    }
  }

  lemma ArenaStep(s: State, a: Label)
    requires R.WellShaped(s.ring)
    ensures Next(s, a).arena == if a.Prepare? then A.Next(s.arena, a.a) else s.arena
  {
  }

  lemma {:induction false} ArenaUnfold(s: A.State, run: seq<Label>)
    requires run != []
    ensures A.Exec(s, ArenaRun(run)) == A.Exec(if run[0].Prepare? then A.Next(s, run[0].a) else s, ArenaRun(run[1..]))
  {
    var all, rest := ArenaRun(run), ArenaRun(run[1..]);
    if run[0].Prepare? {
      assert all == [run[0].a] + rest;
      assert all[0] == run[0].a && all[1..] == rest;
    } else {
      assert all == rest;
    }
  }

  // ---------------------------------------------------------------- undisturbed calls

  lemma StepInRing(s: State, t: nat)
    requires R.WellShaped(s.ring) && t < |s.ring.threads|
    ensures var r := Next(s, Step(t, false));
            r.ring == R.Next(s.ring, R.Step(t, false)) && r.arena == s.arena
  {
  }

  /** One more action in front of a run. */
  lemma {:induction false} StepBefore(s: State, t: nat, run: seq<Label>, r: State)
    requires R.WellShaped(s.ring) && R.WellShaped(Next(s, Step(t, false)).ring)
    requires r == Exec(Next(s, Step(t, false)), run)
    ensures r == Exec(s, [Step(t, false)] + run)
  {
    var all := [Step(t, false)] + run;
    assert all[0] == Step(t, false) && all[1..] == run;
    RunUnfold(s, all);
  }

  /** Actions of a thread are its actions in the ring buffer, and leave the arena alone. */
  lemma {:induction false} StepsAreSolo(s: State, t: nat, k: nat) returns (run: seq<Label>, r: State)
    requires R.WellShaped(s.ring) && t < |s.ring.threads|
    ensures r == Exec(s, run) && r.arena == s.arena && r.ring == R.Exec(s.ring, RT.Solo(t, k))
    ensures forall i :: 0 <= i < |run| ==> run[i] == Step(t, false)
    decreases k
  {
    if k == 0 {
      run, r := [], s;
    } else {
      NextShape(s, Step(t, false));
      StepInRing(s, t);
      var rest;
      rest, r := StepsAreSolo(Next(s, Step(t, false)), t, k - 1);
      StepBefore(s, t, rest, r);
      RingBefore(s.ring, t, k, r.ring);
      run := [Step(t, false)] + rest;
    }
  }

  lemma RingBefore(s: R.State<Handle>, t: nat, k: nat, r: R.State<Handle>)
    requires R.WellShaped(s) && k > 0 && R.WellShaped(R.Next(s, R.Step(t, false)))
    requires r == R.Exec(R.Next(s, R.Step(t, false)), RT.Solo(t, k - 1))
    ensures r == R.Exec(s, RT.Solo(t, k))
  {
    RT.SoloUnfold(s, t, k - 1);
  }

  /** The start of a `push_message` that enters the queue's code. */
  lemma SendStarts(s: State, t: nat, id: nat)
    requires Inv(s) && t < |s.ring.threads| && R.AtRest(s.ring.threads[t].pc) && Pushable(s, id)
    ensures var s0 := Next(s, PushMessage(t, id));
            && Inv(s0) && s0.arena == s.arena && |s0.ring.threads| == |s.ring.threads|
            && s0.ring == R.Next(s.ring, R.Call(t, R.Push(HandleOf(s.arena, id))))
            && Names(s, HandleOf(s.arena, id)) && HandleOf(s.arena, id).id == id
  {
    NextInv(s, PushMessage(t, id));
    R.NextShape(s.ring, R.Call(t, R.Push(HandleOf(s.arena, id))));
  }

  /** An undisturbed `push_message` of a block that its producer holds: with room, its handle is the newest message,
      with the block's offset and size; without, the block is the producer's again. */
  lemma {:induction false} SendAlone(s: State, t: nat, id: nat) returns (run: seq<Label>, r: State)
    requires Inv(s) && t < |s.ring.threads| && R.AtRest(s.ring.threads[t].pc) && RT.Alone(s.ring, t)
    requires id < |s.at| && s.at[id] == WithProducer && s.arena.regions[id].off < s.arena.size
    ensures forall i :: 0 <= i < |run| ==> run[i] == Step(t, false)
    ensures R.WellShaped(Next(s, PushMessage(t, id)).ring) && r == Exec(Next(s, PushMessage(t, id)), run)
    ensures Inv(r) && t < |r.ring.threads| && id < |r.at|
    ensures var q := RT.Queue(s.ring);
            if |q| < s.ring.Size() then
              && r.ring.threads[t].pc == R.Won && r.at[id].Enqueued?
              && RT.Queue(r.ring) == q + [Handle(s.arena.regions[id].off, s.arena.regions[id].len, id)]
            else r.ring.threads[t].pc == R.Lost && r.at[id] == WithProducer && RT.Queue(r.ring) == q
  {
    var h := HandleOf(s.arena, id);
    SendStarts(s, t, id);
    var s0 := Next(s, PushMessage(t, id));
    var k: nat := 5;
    var ring := RA.CallAlone(s.ring, t, R.Push(h), k);
    run, r := StepsAreSolo(s0, t, k);
    ExecInv(s0, run);
    SentOrBack(s, r, t, id, h);
  }

  /** Where the block is afterwards. */
  lemma SentOrBack(s: State, r: State, t: nat, id: nat, h: Handle)
    requires Inv(s) && Inv(r) && r.arena == s.arena && h.id == id < |s.at|
    requires s.at[id] == WithProducer && RA.OnlyThread(s.ring, r.ring, t) && t < |s.ring.threads|
    requires RA.Answered(s.ring, R.Push(h), r.ring.threads[t], r.ring)
    ensures id < |r.at|
    ensures if r.ring.threads[t].pc == R.Won then r.at[id].Enqueued? else r.at[id] == WithProducer
  {
    if r.ring.threads[t].pc == R.Won {
      assert r.ring.log[|s.ring.log|] == h;
      assert LogOk(r, |s.ring.log|);
    } else {
      NotElsewhere(s, r, t, id);
    }
  }

  lemma NotElsewhere(s: State, r: State, t: nat, id: nat)
    requires Messages(s) && Messages(r) && |r.at| == |s.at| && id < |s.at| && s.at[id] == WithProducer
    requires RA.OnlyThread(s.ring, r.ring, t) && t < |s.ring.threads| && !Sends(r.ring.threads[t])
    requires r.ring.log == s.ring.log
    ensures r.at[id] == WithProducer
  {
    forall u | 0 <= u < |s.ring.threads| && Sends(s.ring.threads[u])
      ensures s.ring.threads[u].op.item.id != id
    {
      assert SenderOk(s, u);
    }
    forall p | 0 <= p < |s.ring.log| ensures s.ring.log[p].id != id { assert LogOk(s, p); }
    assert BlockOk(r, id);
  }

  /** An undisturbed `pop_message` delivers the oldest message and removes it, and fails exactly if there is none. */
  lemma {:induction false} ReceiveAlone(s: State, t: nat) returns (run: seq<Label>, r: State)
    requires Inv(s) && t < |s.ring.threads| && R.AtRest(s.ring.threads[t].pc) && RT.Alone(s.ring, t)
    ensures forall i :: 0 <= i < |run| ==> run[i] == Step(t, false)
    ensures R.WellShaped(Next(s, PopMessage(t)).ring) && r == Exec(Next(s, PopMessage(t)), run)
    ensures Inv(r) && t < |r.ring.threads| && r.arena == s.arena
    ensures var q := RT.Queue(s.ring);
            if q == [] then r.ring.threads[t].pc == R.Lost && RT.Queue(r.ring) == []
            else r.ring.threads[t].pc == R.Won && r.ring.threads[t].out == Some(q[0]) && RT.Queue(r.ring) == q[1..]
  {
    NextInv(s, PopMessage(t));
    var s0 := Next(s, PopMessage(t));
    var k: nat := 5;
    var ring := RA.CallAlone(s.ring, t, R.Pop, k);
    run, r := StepsAreSolo(s0, t, k);
    ExecInv(s0, run);
  }
}

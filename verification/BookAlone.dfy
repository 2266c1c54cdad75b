/** What the calls of the order book do when they run to their end undisturbed. */
module BookAlone {
  import opened Options
  import opened Book
  import opened BookRuns
  import R = Ring
  import RI = RingInv
  import RT = RingTheorems
  import RA = RingAlone

  /** The orders in the queue. */
  function Queued(s: State): seq<Order>
    requires s.ring.tail <= s.ring.head == |s.ring.log|
  {
    RT.Queue(s.ring)
  }

  // ---------------------------------------------------------------- runs

  lemma {:induction false} RunUnfold(s: State, run: seq<Label>)
    requires WellShaped(s) && run != []
    ensures WellShaped(Next(s, run[0])) && Exec(s, run) == Exec(Next(s, run[0]), run[1..])
  {
    NextShape(s, run[0]);
  }

  /** One more action in front of a run. */
  lemma {:induction false} Before(s: State, a: Label, s1: State, run: seq<Label>, r: State)
    requires WellShaped(s) && Next(s, a) == s1 && WellShaped(s1) && r == Exec(s1, run)
    ensures r == Exec(s, [a] + run)
  {
    var all := [a] + run;
    assert all[0] == a && all[1..] == run;
    RunUnfold(s, all);
  }

  lemma {:induction false} After(s: State, x: seq<Label>, s1: State, y: seq<Label>, r: State)
    requires WellShaped(s) && Exec(s, x) == s1 && Exec(s1, y) == r
    ensures Exec(s, x + y) == r
    decreases |x|
  {
    if x == [] {
      assert x + y == y;
    } else {
      NextShape(s, x[0]);
      assert (x + y)[0] == x[0] && (x + y)[1..] == x[1..] + y;
      RunUnfold(s, x);
      RunUnfold(s, x + y);
      After(Next(s, x[0]), x[1..], s1, y, r);
    }
  }

  // ---------------------------------------------------------------- submit_order

  /** Actions of a submitter are its actions in the ring buffer. */
  lemma {:induction false} PushesAreSolo(s: State, t: nat, k: nat) returns (run: seq<Label>, r: State)
    requires WellShaped(s) && 0 < t < |s.ring.threads|
    ensures forall i :: 0 <= i < |run| ==> run[i] == Push(t, false)
    ensures r == Exec(s, run) && r == s.(ring := R.Exec(s.ring, RT.Solo(t, k)))
    decreases k
  {
    if k == 0 {
      run, r := [], s;
    } else {
      var s1 := Next(s, Push(t, false));
      R.NextShape(s.ring, R.Step(t, false));
      assert s1 == s.(ring := R.Next(s.ring, R.Step(t, false)));
      var rest;
      rest, r := PushesAreSolo(s1, t, k - 1);
      Before(s, Push(t, false), s1, rest, r);
      RT.SoloUnfold(s.ring, t, k - 1);
      run := [Push(t, false)] + rest;
    }
  }

  /** An undisturbed `submit_order` is accepted exactly if the queue is not full, and then its order is the newest. */
  lemma {:induction false} SubmitAlone(s: State, t: nat, o: Order) returns (run: seq<Label>, r: State)
    requires Inv(s) && 0 < t < |s.ring.threads| && R.AtRest(s.ring.threads[t].pc) && RT.Alone(s.ring, t)
    ensures forall i :: 0 <= i < |run| ==> run[i] == Push(t, false)
    ensures WellShaped(Next(s, Submit(t, o))) && r == Exec(Next(s, Submit(t, o)), run) && r == s.(ring := r.ring)
    ensures RI.Inv(r.ring) && t < |r.ring.threads|
    ensures r.ring.threads[t].pc == if |Queued(s)| < s.ring.Size() then R.Won else R.Lost
    ensures Queued(r) == Queued(s) + if |Queued(s)| < s.ring.Size() then [o] else []
  {
    NextShape(s, Submit(t, o));
    R.NextShape(s.ring, R.Call(t, R.Push(o)));
    var k: nat := 5;
    var ring := RA.CallAlone(s.ring, t, R.Push(o), k);
    run, r := PushesAreSolo(Next(s, Submit(t, o)), t, k);
  }

  // ---------------------------------------------------------------- process_orders

  /** While it fetches, the processing thread drives its pop to the end. */
  lemma {:induction false} GoesAreSolo(s: State, k: nat) returns (run: seq<Label>, r: State)
    requires WellShaped(s) && s.phase.Fetch?
    ensures forall i :: 0 <= i < |run| ==> run[i] == Go(false)
    ensures r == Exec(s, run) && r == s.(ring := R.Exec(s.ring, RT.Solo(0, k)))
    decreases k
  {
    if k == 0 || R.AtRest(s.ring.threads[0].pc) {
      NoMoreMoves(s.ring, k);
      run, r := [], s;
    } else {
      GoStep(s);
      var rest;
      rest, r := GoesAreSolo(Next(s, Go(false)), k - 1);
      Before(s, Go(false), Next(s, Go(false)), rest, r);
      RingBefore(s.ring, k, r.ring);
      run := [Go(false)] + rest;
    }
  }

  lemma GoStep(s: State)
    requires WellShaped(s) && s.phase.Fetch? && !R.AtRest(s.ring.threads[0].pc)
    ensures WellShaped(Next(s, Go(false))) && Next(s, Go(false)) == s.(ring := R.Next(s.ring, R.Step(0, false)))
  {
    R.NextShape(s.ring, R.Step(0, false));
  }

  lemma RingBefore(s: R.State<Order>, k: nat, r: R.State<Order>)
    requires R.WellShaped(s) && k > 0 && R.WellShaped(R.Next(s, R.Step(0, false)))
    requires r == R.Exec(R.Next(s, R.Step(0, false)), RT.Solo(0, k - 1))
    ensures r == R.Exec(s, RT.Solo(0, k))
  {
    RT.SoloUnfold(s, 0, k - 1);
  }

  lemma NoMoreMoves(s: R.State<Order>, k: nat)
    requires R.WellShaped(s) && |s.threads| >= 1 && (k == 0 || R.AtRest(s.threads[0].pc))
    ensures R.Exec(s, RT.Solo(0, k)) == s
  {
    if k > 0 { RA.RestStays(s, 0, k); }
  }

  /** The processing thread is about to start a pop on a quiet queue `ring`. */
  ghost predicate Quiet(ring: R.State<Order>) {
    RI.Inv(ring) && |ring.threads| >= 1 && R.AtRest(ring.threads[0].pc) && RT.Alone(ring, 0)
  }

  ghost predicate Fetching(s: State, ring: R.State<Order>) {
    && WellShaped(s) && Quiet(ring) && s.phase.Fetch? && |s.batch| < s.phase.limit
    && s.ring == R.Next(ring, R.Call(0, R.Pop))
  }

  /** How many of `q` an undisturbed call still fetches. */
  function Share(room: nat, q: seq<Order>): (c: nat)
    ensures c <= room && c <= |q| && (c == room || c == |q|)
  {
    if room <= |q| then room else |q|
  }

  lemma QuietAfter(ring: R.State<Order>, r: R.State<Order>)
    requires Quiet(ring) && RI.Inv(r) && RA.OnlyThread(ring, r, 0) && r.threads[0].pc in {R.Won, R.Lost}
    ensures Quiet(r)
  {
  }

  /** One pop of the batch, and what is collected from it. */
  lemma {:induction false} FetchOne(s: State, ring: R.State<Order>)
    returns (run: seq<Label>, r: State, ring': R.State<Order>)
    requires Fetching(s, ring)
    ensures forall i :: 0 <= i < |run| ==> run[i] == Go(false)
    ensures r == Exec(s, run) && Quiet(ring') && r.book == s.book && r.done == s.done
    ensures var q := RT.Queue(ring);
            if q == [] then
              r.phase == Work && r.ring == ring' && r.batch == s.batch && RT.Queue(ring') == q
            else
              && RT.Queue(ring') == q[1..] && r.batch == s.batch + [q[0]]
              && if |r.batch| >= s.phase.limit then r.phase == Work && r.ring == ring'
                 else r.phase == s.phase && Fetching(r, ring')
  {
    var k: nat := 5;
    ring' := RA.CallAlone(ring, 0, R.Pop, k);
    var x, s1 := GoesAreSolo(s, k);
    QuietAfter(ring, ring');
    NextShape(s1, Go(false));
    r := Next(s1, Go(false));
    Before(s1, Go(false), r, [], r);
    After(s, x, s1, [Go(false)], r);
    run := x + [Go(false)];
  }

  /** A whole batch. */
  lemma {:induction false} FetchAlone(s: State, ring: R.State<Order>) returns (run: seq<Label>, r: State)
    requires Fetching(s, ring)
    ensures forall i :: 0 <= i < |run| ==> run[i] == Go(false)
    ensures r == Exec(s, run) && Quiet(r.ring) && r.phase == Work && r.book == s.book && r.done == s.done
    ensures var q := RT.Queue(ring); var c := Share(s.phase.limit - |s.batch|, q);
            r.batch == s.batch + q[..c] && RT.Queue(r.ring) == q[c..]
    decreases s.phase.limit - |s.batch|
  {
    var x, s1, ring' := FetchOne(s, ring);
    FirstOf(s.batch, RT.Queue(ring), s.phase.limit - |s.batch|);
    if s1.phase.Fetch? {
      var y;
      y, r := FetchAlone(s1, ring');
      After(s, x, s1, y, r);
      run := x + y;
    } else {
      run, r := x, s1;
    }
  }

  /** Taking the first order and then the share of the rest is taking the whole share. */
  lemma {:induction false} FirstOf(batch: seq<Order>, q: seq<Order>, room: nat)
    requires room > 0
    ensures q == [] ==> batch + q[..Share(room, q)] == batch && q[Share(room, q)..] == q
    ensures q != [] ==> var c := Share(room - 1, q[1..]);
              && batch + [q[0]] + q[1..][..c] == batch + q[..Share(room, q)] && q[1..][c..] == q[Share(room, q)..]
  {
    if q != [] {
      var c := Share(room - 1, q[1..]);
      assert Share(room, q) == c + 1;
      assert q[..c + 1] == [q[0]] + q[1..][..c];
    }
  }

  /** The batch is processed in order. */
  lemma {:induction false} WorkAlone(s: State) returns (run: seq<Label>, r: State)
    requires WellShaped(s) && s.phase == Work
    ensures forall i :: 0 <= i < |run| ==> run[i] == Go(false)
    ensures r == Exec(s, run) && r.phase == Rest && r.ring == s.ring && r.batch == []
    ensures r.book == Fold(s.book, s.batch) && r.done == s.done + |s.batch|
    decreases |s.batch|
  {
    var s1 := Next(s, Go(false));
    if s.batch == [] {
      run, r := [Go(false)], s1;
      Before(s, Go(false), s1, [], s1);
    } else {
      var rest;
      rest, r := WorkAlone(s1);
      Before(s, Go(false), s1, rest, r);
      run := [Go(false)] + rest;
    }
  }

  /** Main theorem: an undisturbed `process_orders(n)` takes from the front of the queue as many orders as there are,
      but at most `n` and at most 100, and processes exactly these, in order. */
  lemma {:induction false} ProcessAlone(s: State, n: nat) returns (run: seq<Label>, r: State, count: nat)
    requires Inv(s) && s.phase.Rest? && RT.Alone(s.ring, 0)
    ensures forall i :: 0 <= i < |run| ==> run[i] == Go(false)
    ensures WellShaped(Next(s, ProcessOrders(n))) && r == Exec(Next(s, ProcessOrders(n)), run) && r.phase == Rest
    ensures var q := Queued(s);
            && count <= n && count <= 100 && count <= |q| && (count == n || count == 100 || count == |q|)
            && RI.Inv(r.ring) && Queued(r) == q[count..]
            && r.book == Fold(s.book, q[..count]) && r.done == s.done + count
  {
    NextShape(s, ProcessOrders(n));
    count := Share(Min(n, 100), Queued(s));
    if n == 0 {
      run, r := [], Next(s, ProcessOrders(n));
      assert Queued(s)[..0] == [] && Queued(s)[0..] == Queued(s);
    } else {
      run, r := ProcessSome(s, n);
    }
  }

  lemma ProcessStarts(s: State, n: nat)
    requires Inv(s) && s.phase.Rest? && RT.Alone(s.ring, 0) && n > 0
    ensures var s0 := Next(s, ProcessOrders(n));
            && WellShaped(s0) && Fetching(s0, s.ring) && s0.phase.limit == Min(n, 100)
            && s0.batch == [] && s0.book == s.book && s0.done == s.done
  {
    NextShape(s, ProcessOrders(n));
  }

  lemma {:induction false} ProcessSome(s: State, n: nat) returns (run: seq<Label>, r: State)
    requires Inv(s) && s.phase.Rest? && RT.Alone(s.ring, 0) && n > 0
    ensures forall i :: 0 <= i < |run| ==> run[i] == Go(false)
    ensures WellShaped(Next(s, ProcessOrders(n))) && r == Exec(Next(s, ProcessOrders(n)), run) && r.phase == Rest
    ensures var q := Queued(s); var c := Share(Min(n, 100), q);
            && RI.Inv(r.ring) && Queued(r) == q[c..] && r.book == Fold(s.book, q[..c]) && r.done == s.done + c
  {
    ProcessStarts(s, n);
    var s0 := Next(s, ProcessOrders(n));
    var x, s1 := FetchAlone(s0, s.ring);
    var c := Share(Min(n, 100), Queued(s));
    assert s1.batch == Queued(s)[..c];
    var y;
    y, r := WorkAlone(s1);
    After(s0, x, s1, y, r);
    run := x + y;
  }
}

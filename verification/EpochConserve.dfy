/** Retired pointers are conserved by the reclaimer, with no hypothesis on its runs. */
module EpochConserve {
  import opened Epoch
  import opened RetireLists

  type Recs = multiset<Rec>

  /** What worker `x` has swapped out and not yet deleted. */
  function InHand(x: Worker): multiset<Rec> {
    if x.Free? then multiset(x.batch) else multiset{}
  }

  /** The sum of `f` over the first `n` workers. */
  ghost function SumUpTo<X(!new)>(f: Worker -> multiset<X>, ws: seq<Worker>, n: nat): multiset<X>
    requires n <= |ws|
  {
    if n == 0 then multiset{} else SumUpTo(f, ws, n - 1) + f(ws[n - 1])
  }

  ghost function Sum<X(!new)>(f: Worker -> multiset<X>, ws: seq<Worker>): multiset<X> { SumUpTo(f, ws, |ws|) }

  /** What all workers have in hand. */
  ghost function AllInHand(ws: seq<Worker>): multiset<Rec> { Sum(InHand, ws) }

  lemma Rearrange<X>(a: multiset<X>, b: multiset<X>, c: multiset<X>, d: multiset<X>, x: multiset<X>)
    requires a + b == c + d
    ensures (a + x) + b == (c + x) + d
  {
    assert (a + x) + b == (a + b) + x;
    assert (c + x) + d == (c + d) + x;
  }

  lemma {:induction false} UpToUpdate<X(!new)>(f: Worker -> multiset<X>, ws: seq<Worker>, w: nat, x: Worker, n: nat)
    requires w < |ws| && n <= |ws|
    ensures n <= w ==> SumUpTo(f, ws[w := x], n) == SumUpTo(f, ws, n)
    ensures n > w ==> SumUpTo(f, ws[w := x], n) + f(ws[w]) == SumUpTo(f, ws, n) + f(x)
    decreases n
  {
    if n > 0 {
      UpToUpdate(f, ws, w, x, n - 1);
      if n - 1 > w {
        Rearrange(SumUpTo(f, ws[w := x], n - 1), f(ws[w]), SumUpTo(f, ws, n - 1), f(x), f(ws[n - 1]));
      }
    }
  }

  /** When one worker moves, the sum changes by what it had and what it has. */
  lemma {:induction false} SumUpdate<X(!new)>(f: Worker -> multiset<X>, ws: seq<Worker>, w: nat, x: Worker)
    requires w < |ws|
    ensures Sum(f, ws[w := x]) + f(ws[w]) == Sum(f, ws) + f(x)
  {
    UpToUpdate(f, ws, w, x, |ws|);
  }

  lemma {:induction false} InHandUpdate(ws: seq<Worker>, w: nat, x: Worker)
    requires w < |ws|
    ensures AllInHand(ws[w := x]) + InHand(ws[w]) == AllInHand(ws) + InHand(x)
  {
    SumUpdate(InHand, ws, w, x);
  }

  /** Everything ever appended is waiting, in hand, or deleted. */
  ghost predicate Balanced(appended: Recs, waiting: Recs, hand: Recs, deleted: Recs) {
    appended == waiting + hand + deleted
  }

  ghost predicate Conserved(s: State) {
    |s.lists| == 3 && Balanced(multiset(s.appended), Waiting(s.lists), AllInHand(s.workers), multiset(s.deleted))
  }

  lemma Cancel<X(!new)>(a: multiset<X>, b: multiset<X>, c: multiset<X>)
    requires a + c == b + c
    ensures a == b
  {
    forall x
      ensures a[x] == b[x]
    {
      assert (a + c)[x] == (b + c)[x];
    }
  }

  /** Moving `l` from the waiting to a hand. */
  lemma MoveToHand(a: Recs, w: Recs, w': Recs, h: Recs, d: Recs, l: Recs)
    requires Balanced(a, w, h, d) && w' + l == w
    ensures Balanced(a, w', h + l, d)
  {
    assert w' + (h + l) + d == (w' + l) + h + d;
  }

  /** Moving `l` from a hand to the deleted. */
  lemma MoveToDeleted(a: Recs, w: Recs, h: Recs, h': Recs, d: Recs, l: Recs)
    requires Balanced(a, w, h, d) && h' + l == h
    ensures Balanced(a, w, h', d + l)
  {
    assert w + h' + (d + l) == w + (h' + l) + d;
  }

  /** A new record waits. */
  lemma AddWaiting(a: Recs, w: Recs, h: Recs, d: Recs, l: Recs)
    requires Balanced(a, w, h, d)
    ensures Balanced(a + l, w + l, h, d)
  {
    assert (w + l) + h + d == (w + h + d) + l;
  }

  /** A worker that moves without touching the lists or what it has in hand. */
  lemma QuietConserves(s: State, s': State, w: nat, x: Worker)
    requires Conserved(s) && w < |s.workers| && InHand(x) == InHand(s.workers[w]) && s'.workers == s.workers[w := x]
    requires s'.lists == s.lists && s'.appended == s.appended && s'.deleted == s.deleted
    ensures Conserved(s')
  {
    InHandUpdate(s.workers, w, x);
    Cancel(AllInHand(s.workers[w := x]), AllInHand(s.workers), InHand(x));
  }

  lemma AppendConserves(s: State, w: nat)
    requires Conserved(s) && w < |s.workers| && s.workers[w].Append?
    ensures Conserved(Work1(s, w))
  {
    var rec := s.workers[w].rec;
    var j := rec.r % 3;
    var rec' := rec.(safe := rec.safe || !Pending(s, j));
    var s1 := SetWorker(s, w, Start);
    QuietConserves(s, s1, w, Start);
    WaitingAppend(s.lists, j, rec');
    AddWaiting(multiset(s.appended), Waiting(s.lists), AllInHand(s1.workers), multiset(s.deleted), multiset{rec'});
  }

  lemma SwapConserves(s: State, w: nat)
    requires Conserved(s) && w < |s.workers| && s.workers[w].Swap?
    ensures Conserved(Work1(s, w))
  {
    var j := s.workers[w].n % 3;
    var list := s.lists[j];
    InHandUpdate(s.workers, w, Free(list));
    var h' := AllInHand(s.workers[w := Free(list)]);
    assert h' == h' + InHand(s.workers[w]);
    WaitingClear(s.lists, j);
    MoveToHand(multiset(s.appended), Waiting(s.lists), Waiting(s.lists[j := []]), AllInHand(s.workers),
               multiset(s.deleted), multiset(list));
  }

  lemma {:induction false} FirstOf(batch: seq<Rec>)
    requires batch != []
    ensures multiset(batch) == multiset{batch[0]} + multiset(batch[1..])
  {
    assert batch == [batch[0]] + batch[1..];
  }

  lemma FreeConserves(s: State, w: nat)
    requires Conserved(s) && w < |s.workers| && s.workers[w].Free? && s.workers[w].batch != []
    ensures Conserved(Work1(s, w))
  {
    var batch := s.workers[w].batch;
    var h, h' := AllInHand(s.workers), AllInHand(s.workers[w := Free(batch[1..])]);
    var one, rest := multiset{batch[0]}, multiset(batch[1..]);
    InHandUpdate(s.workers, w, Free(batch[1..]));
    FirstOf(batch);
    assert (h' + one) + rest == h' + (one + rest);
    Cancel(h' + one, h, rest);
    MoveToDeleted(multiset(s.appended), Waiting(s.lists), h, h', multiset(s.deleted), one);
    assert multiset(s.deleted + [batch[0]]) == multiset(s.deleted) + one;
  }

  lemma RestConserves(s: State, w: nat)
    requires Conserved(s) && w < |s.workers| && !s.workers[w].Append? && !s.workers[w].Swap?
    requires s.workers[w].Free? ==> s.workers[w].batch == []
    ensures Conserved(Work1(s, w))
  {
    match s.workers[w]
    case Idle =>
    case Start => QuietConserves(s, Work1(s, w), w, Scan(s.g, 0));
    case Scan(cur, i) => QuietConserves(s, Work1(s, w), w, Look(s, cur, i));
    case Cas(cur) => QuietConserves(s, Work1(s, w), w, if s.g == cur then Swap(cur + 1) else Idle);
    case Free(_) => QuietConserves(s, Work1(s, w), w, Idle);
  }

  /** Conservation at every step, even with the exchange and the swap apart. */
  lemma NextConserves(s: State, a: Label)
    requires Conserved(s)
    ensures Conserved(Next(s, a))
  {
    if a.Work? && a.w < |s.workers| {
      var w, x := a.w, s.workers[a.w];
      if x.Append? {
        AppendConserves(s, w);
      } else if x.Swap? {
        SwapConserves(s, w);
      } else if x.Free? && x.batch != [] {
        FreeConserves(s, w);
      } else {
        RestConserves(s, w);
      }
    } else if a.Retire? && a.w < |s.workers| && s.workers[a.w].Idle? {
      QuietConserves(s, Next(s, a), a.w, Append(NewRec(s, a.ptr)));
    }
  }

  lemma {:induction false} ExecConserves(s: State, run: seq<Label>)
    requires Conserved(s)
    ensures Conserved(Exec(s, run))
    decreases |run|
  {
    if run != [] {
      NextConserves(s, run[0]);
      ExecConserves(Next(s, run[0]), run[1..]);
    }
  }

  /** The destructor: delete everything on the three lists, list by list. */
  function Destroy(s: State): State
    requires |s.lists| == 3
  {
    s.(deleted := s.deleted + s.lists[0] + s.lists[1] + s.lists[2], lists := [[], [], []])
  }

  lemma {:induction false} NothingLeft<X(!new)>(f: Worker -> multiset<X>, ws: seq<Worker>, n: nat)
    requires n <= |ws| && f(Idle) == multiset{} && forall w :: 0 <= w < |ws| ==> ws[w].Idle?
    ensures SumUpTo(f, ws, n) == multiset{}
    decreases n
  {
    if n > 0 { NothingLeft(f, ws, n - 1); }
  }

  // ---------------------------------------------------------------- from the retire calls to the deletions

  /** The pointers of a sequence of records. */
  ghost function Pointers(recs: seq<Rec>): multiset<nat> {
    if recs == [] then multiset{} else Pointers(recs[..|recs| - 1]) + multiset{recs[|recs| - 1].ptr}
  }

  lemma {:induction false} PointersSplit(a: seq<Rec>, b: seq<Rec>)
    ensures Pointers(a + b) == Pointers(a) + Pointers(b)
    decreases |b|
  {
    if b == [] {
      assert a + b == a;
    } else {
      var n := |b| - 1;
      assert (a + b)[..|a + b| - 1] == a + b[..n];
      PointersSplit(a, b[..n]);
    }
  }

  /** Taking one record out. */
  lemma {:induction false} WithoutOne(b: seq<Rec>, i: nat)
    requires i < |b|
    ensures multiset(b) == multiset(b[..i] + b[i + 1..]) + multiset{b[i]}
    ensures Pointers(b) == Pointers(b[..i] + b[i + 1..]) + multiset{b[i].ptr}
  {
    var u, v, x := b[..i], b[i + 1..], b[i];
    assert b == u + [x] + v;
    PointersSplit(u, v);
    PointersSplit(u, [x]);
    PointersSplit(u + [x], v);
    assert Pointers([x]) == multiset{x.ptr};
    Exchange(Pointers(u), multiset{x.ptr}, Pointers(v));
  }

  lemma Exchange<X>(a: multiset<X>, b: multiset<X>, c: multiset<X>)
    ensures a + b + c == a + c + b
  {
  }

  /** Records that are the same, in whatever order, have the same pointers. */
  lemma {:induction false} SamePointers(a: seq<Rec>, b: seq<Rec>)
    requires multiset(a) == multiset(b)
    ensures Pointers(a) == Pointers(b)
    decreases |a|
  {
    if a == [] {
      assert |multiset(b)| == |b|;
    } else {
      var n := |a| - 1;
      WithoutOne(a, n);
      assert a[..n] + a[n + 1..] == a[..n];
      assert a[n] in multiset(b);
      var i :| 0 <= i < |b| && b[i] == a[n];
      WithoutOne(b, i);
      Cancel(multiset(a[..n]), multiset(b[..i] + b[i + 1..]), multiset{a[n]});
      SamePointers(a[..n], b[..i] + b[i + 1..]);
    }
  }

  /** The pointer of a `retire` that has read the epoch and not yet appended. */
  function OnTheWay(x: Worker): multiset<nat> {
    if x.Append? then multiset{x.rec.ptr} else multiset{}
  }

  /** The pointer that a choice retires: a worker that is inside no call starts one. */
  ghost function Retires(s: State, a: Label): multiset<nat> {
    if a.Retire? && a.w < |s.workers| && s.workers[a.w].Idle? then multiset{a.ptr} else multiset{}
  }

  /** All pointers retired by a run. */
  ghost function RetiredBy(s: State, run: seq<Label>): multiset<nat>
    requires |s.lists| == 3
    decreases |run|
  {
    if run == [] then multiset{} else NextShape(s, run[0]); Retires(s, run[0]) + RetiredBy(Next(s, run[0]), run[1..])
  }

  /** Retired so far: appended or on the way. */
  ghost function Given(s: State): multiset<nat> {
    Pointers(s.appended) + Sum(OnTheWay, s.workers)
  }

  /** A worker that moves without appending. */
  lemma MoveGiven(s: State, s': State, w: nat, x: Worker)
    requires w < |s.workers| && s'.workers == s.workers[w := x] && s'.appended == s.appended
    ensures Given(s') + OnTheWay(s.workers[w]) == Given(s) + OnTheWay(x)
  {
    var p, a, b := Pointers(s.appended), Sum(OnTheWay, s.workers), Sum(OnTheWay, s'.workers);
    SumUpdate(OnTheWay, s.workers, w, x);
    assert (p + b) + OnTheWay(s.workers[w]) == p + (b + OnTheWay(s.workers[w]));
    assert (p + a) + OnTheWay(x) == p + (a + OnTheWay(x));
  }

  lemma AppendGiven(s: State, w: nat)
    requires |s.lists| == 3 && w < |s.workers| && s.workers[w].Append?
    ensures Given(Work1(s, w)) == Given(s)
  {
    var s', p := Work1(s, w), multiset{s.workers[w].rec.ptr};
    var rec' := s'.appended[|s.appended|];
    var s1 := s.(workers := s'.workers);
    MoveGiven(s, s1, w, Start);
    PointersSplit(s.appended, [rec']);
    assert Pointers([rec']) == p;
    Exchange(Pointers(s.appended), p, Sum(OnTheWay, s'.workers));
  }

  /** A worker that moves and was not and is not on the way. */
  lemma QuietGiven(s: State, s': State, w: nat, x: Worker)
    requires w < |s.workers| && s'.workers == s.workers[w := x] && s'.appended == s.appended
    requires !s.workers[w].Append? && !x.Append?
    ensures Given(s') == Given(s)
  {
    MoveGiven(s, s', w, x);
    Cancel(Given(s'), Given(s), multiset{});
  }

  lemma WorkGiven(s: State, w: nat)
    requires |s.lists| == 3 && w < |s.workers|
    ensures Given(Next(s, Work(w))) == Given(s)
  {
    var s' := Next(s, Work(w));
    SameGiven(Work1(s, w), s');
    if s.workers[w].Append? {
      AppendGiven(s, w);
    } else {
      QuietGiven(s, s', w, s'.workers[w]);
    }
  }

  lemma RetireGiven(s: State, w: nat, ptr: nat)
    requires |s.lists| == 3 && w < |s.workers| && s.workers[w].Idle?
    ensures Given(Next(s, Retire(w, ptr))) == Given(s) + multiset{ptr}
  {
    var s' := Next(s, Retire(w, ptr));
    MoveGiven(s, s', w, Append(NewRec(s, ptr)));
    Nothing(Given(s'));
  }

  lemma Nothing<X>(a: multiset<X>)
    ensures a + multiset{} == a
  {
  }

  /** The choice makes a worker move. */
  predicate Moves(s: State, a: Label) {
    (a.Work? && a.w < |s.workers|) || (a.Retire? && a.w < |s.workers| && s.workers[a.w].Idle?)
  }

  lemma OtherGiven(s: State, a: Label)
    requires |s.lists| == 3 && !Moves(s, a)
    ensures Given(Next(s, a)) == Given(s)
  {
    var s' := Next(s, a);
    assert s'.workers == s.workers && s'.appended == s.appended;
    SameGiven(s, s');
  }

  /** What a run has been given grows by exactly what it retires. */
  lemma NextGiven(s: State, a: Label)
    requires |s.lists| == 3
    ensures Given(Next(s, a)) == Given(s) + Retires(s, a)
  {
    if !Moves(s, a) {
      OtherGiven(s, a);
      Nothing(Given(s));
    } else if a.Work? {
      WorkGiven(s, a.w);
      Nothing(Given(s));
    } else {
      RetireGiven(s, a.w, a.ptr);
    }
  }

  lemma SameGiven(s: State, s': State)
    requires s'.workers == s.workers && s'.appended == s.appended
    ensures Given(s') == Given(s)
  {
  }

  /** Every `retire` of a run is on its way or appended, once. */
  lemma {:induction false} ExecGiven(s: State, run: seq<Label>)
    requires |s.lists| == 3
    ensures Given(Exec(s, run)) == Given(s) + RetiredBy(s, run)
    decreases |run|
  {
    if run != [] {
      NextShape(s, run[0]);
      NextGiven(s, run[0]);
      ExecGiven(Next(s, run[0]), run[1..]);
    }
  }

  lemma InitGiven(s: State)
    requires Init(s)
    ensures Conserved(s) && Given(s) == multiset{}
  {
    NothingLeft(InHand, s.workers, |s.workers|);
    NothingLeft(OnTheWay, s.workers, |s.workers|);
  }

  predicate Quiescent(s: State) { forall w :: 0 <= w < |s.workers| ==> s.workers[w].Idle? }

  lemma DestroyedAll(r: State)
    requires Conserved(r) && Quiescent(r)
    ensures multiset(Destroy(r).deleted) == multiset(r.appended) && Given(r) == Pointers(r.appended)
  {
    NothingLeft(InHand, r.workers, |r.workers|);
    NothingLeft(OnTheWay, r.workers, |r.workers|);
    var a, b, c := r.lists[0], r.lists[1], r.lists[2];
    assert multiset(r.deleted + a + b + c) == multiset(r.deleted) + multiset(a) + multiset(b) + multiset(c);
  }

  /** Main theorem: after any run that ends with no call in progress, the destructor leaves every pointer deleted
      exactly as often as the run retired it. */
  lemma {:induction false} DestroyedOnce(s: State, run: seq<Label>)
    requires Init(s) && Quiescent(Exec(s, run))
    ensures Pointers(Destroy(Exec(s, run)).deleted) == RetiredBy(s, run)
  {
    InitGiven(s);
    ExecConserves(s, run);
    ExecGiven(s, run);
    DestroyedAll(Exec(s, run));
    SamePointers(Destroy(Exec(s, run)).deleted, Exec(s, run).appended);
    Nothing(RetiredBy(s, run));
  }
}

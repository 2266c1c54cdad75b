/** When inserts of one key do not overlap, the hash map is an atomic insert-only map of bounded size: an insert
    takes effect at its claim or at the action that rejects it, a find at its last load. */
module HashAtomic {
  import opened Options
  import opened HashTable
  import opened HashTheorems

  // ---------------------------------------------------------------- specification

  /** What an action means to a caller: an insert added its pair, met its key, or found no room; a find returned a
      value, or nothing. */
  datatype Event<V> =
    | Added(k: Key, v: V) | Rejected(k: Key) | NoRoom(k: Key)
    | Found(k: Key, v: V) | Missing(k: Key)
    | Tau

  /** The atomic map of at most `n` keys may do `e`. */
  ghost predicate Allowed<V>(m: map<Key, V>, e: Event<V>, n: nat) {
    match e
    case Added(k, v) => k !in m && |m| < n
    case Rejected(k) => k in m
    case NoRoom(k) => k !in m && |m| == n
    case Found(k, v) => k in m && m[k] == v
    case Missing(k) => k !in m
    case Tau => true
  }

  function After<V>(m: map<Key, V>, e: Event<V>): map<Key, V> {
    if e.Added? then m[e.k := e.v] else m
  }

  /** `es` is a behaviour of the atomic map from `m` to `m'`. */
  ghost predicate Behaves<V>(m: map<Key, V>, es: seq<Event<V>>, m': map<Key, V>, n: nat)
    decreases |es|
  {
    if es == [] then m == m' else Allowed(m, es[0], n) && Behaves(After(m, es[0]), es[1..], m', n)
  }

  /** The event of an action, from what it did to the acting thread. */
  function EventOf<V>(s: State<V>, a: Label<V>): Event<V>
    requires |s.cells| > 0
  {
    if a.Call? || a.t >= |s.threads| || AtRest(s.threads[a.t].pc) then Tau
    else
      var l, l' := s.threads[a.t], Act(s, a.t).threads[a.t];
      match l'.pc
      case WriteKey => if l.op.Insert? then Added(l.op.k, l.op.v) else Tau
      case Duplicate => Rejected(l.op.k)
      case Full => NoRoom(l.op.k)
      case Absent => Missing(l.op.k)
      case Yes => if l.op.Find? && l'.out.Some? then Found(l.op.k, l'.out.value) else Tau
      case _ => Tau
  }

  // ---------------------------------------------------------------- hypothesis and invariant

  predicate Inserting<V>(l: Local<V>) { l.op.Insert? && !AtRest(l.pc) }

  predicate Differ<V>(l: Local<V>, x: Local<V>) { Inserting(l) && Inserting(x) ==> l.op.k != x.op.k }

  /** No two inserts of one key are in progress. */
  ghost predicate Apart<V>(s: State<V>) {
    forall t, u {:trigger s.threads[t], s.threads[u]} :: 0 <= t < u < |s.threads| ==> Differ(s.threads[t], s.threads[u])
  }

  /** The label starts no insert of a key that another thread is inserting. */
  ghost predicate Separate<V>(s: State<V>, a: Label<V>) {
    a.Call? && a.op.Insert? ==>
      forall u :: 0 <= u < |s.threads| && u != a.t ==> Differ(s.threads[u], Local(a.op, Occ, 0, None))
  }

  ghost predicate SeparateRun<V>(s: State<V>, run: seq<Label<V>>)
    requires |s.cells| > 0
    decreases |run|
  {
    run != [] ==> Separate(s, run[0]) && (NextShape(s, run[0]); SeparateRun(Next(s, run[0]), run[1..]))
  }

  /** No slot of `k` before depth `d` is claimed for `k`. */
  ghost predicate NotBefore<V>(s: State<V>, k: Key, d: nat)
    requires |s.cells| > 0
  {
    forall e: nat {:trigger At(k, e, |s.cells|)} :: e < d ==>
      var c := s.cells[At(k, e, |s.cells|)]; c.occupied && c.claim.Some? ==> c.claim.value.k != k
  }

  /** An insert has passed no slot claimed for its key; before its claim there is none at all. */
  ghost predicate ProbeOk<V>(s: State<V>, u: nat)
    requires |s.cells| > 0 && u < |s.threads|
  {
    var l := s.threads[u];
    l.op.Insert? ==>
      && (l.pc in {Occ, Ready, Cmp} ==> NotBefore(s, l.op.k, l.i))
      && (l.pc == Cas ==> NotBefore(s, l.op.k, |s.cells|))
  }

  /** A cell that is claimed and not ready has its claimant at work. */
  ghost predicate OwnerOk<V>(s: State<V>, j: nat)
    requires |s.cells| > 0 && j < |s.cells|
  {
    var c := s.cells[j];
    c.occupied && !c.ready && c.claim.Some? ==>
      var m := c.claim.value;
      && m.t < |s.threads| && s.threads[m.t].op.Insert? && s.threads[m.t].op.k == m.k
      && s.threads[m.t].pc in {WriteKey, WriteValue, Publish} && At(m.k, s.threads[m.t].i, |s.cells|) == j
  }

  ghost function Taken<V>(cells: seq<Cell<V>>): set<nat> {
    set j: nat | j < |cells| && cells[j].occupied
  }

  /** `m` is the map of the claims: each claim is in it, each key of it is claimed, and no key twice. */
  ghost predicate Agrees<V>(cells: seq<Cell<V>>, m: map<Key, V>) {
    Covered(cells, m) && Backed(cells, m) && |m| == |Taken(cells)| && Distinct(cells)
  }

  ghost predicate Covered<V>(cells: seq<Cell<V>>, m: map<Key, V>) {
    forall j {:trigger cells[j]} :: 0 <= j < |cells| ==> Pair(cells[j], m)
  }

  predicate Pair<V(==)>(c: Cell<V>, m: map<Key, V>) {
    c.occupied && c.claim.Some? ==> c.claim.value.k in m && m[c.claim.value.k] == c.claim.value.v
  }

  ghost predicate Backed<V>(cells: seq<Cell<V>>, m: map<Key, V>) {
    forall k {:trigger k in m} :: k in m ==> ClaimedIn(cells, k)
  }

  /** No key is claimed twice. */
  ghost predicate Distinct<V>(cells: seq<Cell<V>>) {
    forall i, j {:trigger cells[i], cells[j]} :: 0 <= i < j < |cells| ==> Unlike(cells[i], cells[j])
  }

  predicate Unlike<V>(c: Cell<V>, e: Cell<V>) {
    c.occupied && c.claim.Some? ==> !ClaimFor(e, c.claim.value.k)
  }

  ghost predicate ClaimedIn<V>(cells: seq<Cell<V>>, k: Key) {
    exists j :: 0 <= j < |cells| && ClaimFor(cells[j], k)
  }

  predicate ClaimFor<V>(c: Cell<V>, k: Key) { c.occupied && c.claim.Some? && c.claim.value.k == k }

  ghost predicate Orderly<V>(s: State<V>) {
    && Inv(s) && Apart(s)
    && (forall j {:trigger s.cells[j]} :: 0 <= j < |s.cells| ==> OwnerOk(s, j))
    && forall u {:trigger s.threads[u]} :: 0 <= u < |s.threads| ==> ProbeOk(s, u)
  }

  lemma InitOrderly<V>(s: State<V>)
    requires Init(s)
    ensures Orderly(s) && Agrees(s.cells, map[])
  {
    InitInv(s);
    forall j | 0 <= j < |s.cells| ensures OwnerOk(s, j) { assert !s.cells[j].occupied; }
    forall u | 0 <= u < |s.threads| ensures ProbeOk(s, u) { assert s.threads[u].pc == Idle; }
    assert Taken(s.cells) == {};
  }

  // ---------------------------------------------------------------- claims and the map

  /** A key that no slot before the last depth is claimed for is claimed nowhere. */
  lemma ClaimedNowhere<V>(s: State<V>, k: Key)
    requires Inv(s) && NotBefore(s, k, |s.cells|)
    ensures !ClaimedIn(s.cells, k)
  {
    forall j | 0 <= j < |s.cells|
      ensures !ClaimFor(s.cells[j], k)
    {
      assert CellOk(s, j);
    }
  }

  /** An empty slot at a depth ends the search: no slot beyond it is claimed for the key. */
  lemma EmptyEnds<V>(s: State<V>, k: Key, i: nat)
    requires Inv(s) && NotBefore(s, k, i) && i < |s.cells| && !s.cells[At(k, i, |s.cells|)].occupied
    ensures NotBefore(s, k, |s.cells|)
  {
    forall e: nat | e < |s.cells|
      ensures !ClaimFor(s.cells[At(k, e, |s.cells|)], k)
    {
      assert CellOk(s, At(k, e, |s.cells|));
    }
  }

  lemma NotBeforeGrows<V>(s: State<V>, k: Key, d: nat)
    requires |s.cells| > 0 && NotBefore(s, k, d) && !ClaimFor(s.cells[At(k, d, |s.cells|)], k)
    ensures NotBefore(s, k, d + 1)
  {
  }

  /** The occupied slot that an insert looks at is not its key's, unless it is ready with that key. */
  lemma OtherKey<V>(s: State<V>, u: nat, j: nat)
    requires Orderly(s) && u < |s.threads| && Inserting(s.threads[u]) && s.threads[u].pc in {Occ, Ready, Cmp, Cas}
    requires j < |s.cells| && !Holds(s.cells[j], s.threads[u].op.k)
    ensures !ClaimFor(s.cells[j], s.threads[u].op.k)
  {
    assert CellOk(s, j) && OwnerOk(s, j);
    var c := s.cells[j];
    if ClaimFor(c, s.threads[u].op.k) && !c.ready {
      assert Inserting(s.threads[c.claim.value.t]);
    }
  }

  lemma {:induction false} FullTable<V>(cells: seq<Cell<V>>)
    ensures |Taken(cells)| <= |cells|
    ensures |Taken(cells)| == |cells| <==> forall j :: 0 <= j < |cells| ==> cells[j].occupied
  {
    if cells != [] {
      var n := |cells| - 1;
      var front := cells[..n];
      FullTable(front);
      if cells[n].occupied {
        assert Taken(cells) == Taken(front) + {n};
      } else {
        assert Taken(cells) == Taken(front);
      }
      assert forall j :: 0 <= j < n ==> front[j] == cells[j];
    }
  }

  lemma {:induction false} DistinctAdded<V>(cells: seq<Cell<V>>, j: nat, c: Cell<V>)
    requires Distinct(cells) && j < |cells| && c.occupied && c.claim.Some? && !ClaimedIn(cells, c.claim.value.k)
    ensures Distinct(cells[j := c])
  {
    var cells' := cells[j := c];
    forall x, y | 0 <= x < y < |cells'|
      ensures Unlike(cells'[x], cells'[y])
    {
      assert !ClaimFor(cells[x], c.claim.value.k) && !ClaimFor(cells[y], c.claim.value.k);
    }
  }

  lemma {:induction false} BackedAdded<V>(cells: seq<Cell<V>>, m: map<Key, V>, j: nat, c: Cell<V>)
    requires Backed(cells, m) && j < |cells| && !cells[j].occupied && c.occupied && c.claim.Some?
    ensures Backed(cells[j := c], m[c.claim.value.k := c.claim.value.v])
  {
    var k, v := c.claim.value.k, c.claim.value.v;
    var cells' := cells[j := c];
    forall y | y in m[k := v]
      ensures ClaimedIn(cells', y)
    {
      if y == k {
        assert ClaimFor(cells'[j], k);
      } else {
        assert ClaimedIn(cells, y);
        var x :| 0 <= x < |cells| && ClaimFor(cells[x], y);
        assert ClaimFor(cells'[x], y);
      }
    }
  }

  lemma {:induction false} CoveredAdded<V>(cells: seq<Cell<V>>, m: map<Key, V>, j: nat, c: Cell<V>)
    requires Covered(cells, m) && j < |cells| && c.occupied && c.claim.Some? && !ClaimedIn(cells, c.claim.value.k)
    ensures Covered(cells[j := c], m[c.claim.value.k := c.claim.value.v])
  {
    var cells' := cells[j := c];
    forall x | 0 <= x < |cells'|
      ensures Pair(cells'[x], m[c.claim.value.k := c.claim.value.v])
    {
      assert Pair(cells[x], m) && !ClaimFor(cells[x], c.claim.value.k);
    }
  }

  /** A claim adds its pair. */
  lemma {:induction false} AgreesAdded<V>(cells: seq<Cell<V>>, m: map<Key, V>, j: nat, c: Cell<V>)
    requires Agrees(cells, m) && j < |cells| && !cells[j].occupied && c.occupied && c.claim.Some?
    requires !ClaimedIn(cells, c.claim.value.k)
    ensures c.claim.value.k !in m && |m| < |cells|
    ensures Agrees(cells[j := c], m[c.claim.value.k := c.claim.value.v])
  {
    FullTable(cells);
    assert Taken(cells[j := c]) == Taken(cells) + {j};
    CoveredAdded(cells, m, j, c);
    BackedAdded(cells, m, j, c);
    DistinctAdded(cells, j, c);
  }

  lemma {:induction false} BackedKept<V>(cells: seq<Cell<V>>, m: map<Key, V>, j: nat, c: Cell<V>)
    requires Backed(cells, m) && j < |cells| && c.occupied == cells[j].occupied && c.claim == cells[j].claim
    ensures Backed(cells[j := c], m)
  {
    forall k | k in m
      ensures ClaimedIn(cells[j := c], k)
    {
      var x :| 0 <= x < |cells| && ClaimFor(cells[x], k);
      assert ClaimFor(cells[j := c][x], k);
    }
  }

  lemma {:induction false} DistinctKept<V>(cells: seq<Cell<V>>, j: nat, c: Cell<V>)
    requires Distinct(cells) && j < |cells| && c.occupied == cells[j].occupied && c.claim == cells[j].claim
    ensures Distinct(cells[j := c])
  {
    var cells' := cells[j := c];
    forall x, y | 0 <= x < y < |cells'|
      ensures Unlike(cells'[x], cells'[y])
    {
      assert Unlike(cells[x], cells[y]);
    }
  }

  /** Stores that leave claims alone leave the map alone. */
  lemma {:induction false} AgreesKept<V>(cells: seq<Cell<V>>, m: map<Key, V>, j: nat, c: Cell<V>)
    requires Agrees(cells, m) && j < |cells| && c.occupied == cells[j].occupied && c.claim == cells[j].claim
    ensures Agrees(cells[j := c], m)
  {
    assert Taken(cells[j := c]) == Taken(cells);
    assert Pair(cells[j], m);
    BackedKept(cells, m, j, c);
    DistinctKept(cells, j, c);
  }

  // ---------------------------------------------------------------- every action

  /** The acting thread keeps its operation, and the others everything. */
  lemma OnlyActor<V>(s: State<V>, t: nat)
    requires |s.cells| > 0 && t < |s.threads|
    ensures |Act(s, t).threads| == |s.threads| && |Act(s, t).cells| == |s.cells|
    ensures Act(s, t).threads[t].op == s.threads[t].op
    ensures Inserting(Act(s, t).threads[t]) ==> Inserting(s.threads[t])
    ensures forall u :: 0 <= u < |s.threads| && u != t ==> Act(s, t).threads[u] == s.threads[u]
  {
  }

  lemma ActApart<V>(s: State<V>, t: nat)
    requires Apart(s) && |s.cells| > 0 && t < |s.threads|
    ensures Apart(Act(s, t))
  {
    OnlyActor(s, t);
  }

  /** An action other than a claim leaves occupied flags and claims alone. */
  lemma ClaimsKept<V>(s: State<V>, t: nat)
    requires |s.cells| > 0 && t < |s.threads| && Act(s, t).threads[t].pc != WriteKey
    ensures var s', j := Act(s, t), Here(s, t);
            && |s'.cells| == |s.cells| && s'.cells == s.cells[j := s'.cells[j]]
            && s'.cells[j].occupied == s.cells[j].occupied && s'.cells[j].claim == s.cells[j].claim
  {
  }

  lemma ActOwners<V>(s: State<V>, t: nat, j: nat)
    requires Orderly(s) && t < |s.threads| && j < |s.cells|
    ensures |Act(s, t).cells| == |s.cells| && OwnerOk(Act(s, t), j)
  {
    assert ThreadOk(s, t) && OwnerOk(s, j) && CellOk(s, j);
    OnlyActor(s, t);
  }

  /** Another thread's probe is not affected: what is claimed meanwhile is claimed for another key. */
  lemma OtherProbe<V>(s: State<V>, t: nat, u: nat)
    requires Orderly(s) && t < |s.threads| && u < |s.threads| && u != t
    ensures |Act(s, t).cells| == |s.cells| && |Act(s, t).threads| == |s.threads| && ProbeOk(Act(s, t), u)
  {
    OnlyActor(s, t);
    assert ThreadOk(s, t) && ProbeOk(s, u);
    var s', l := Act(s, t), s.threads[u];
    if Inserting(l) {
      forall d | NotBefore(s, l.op.k, d)
        ensures NotBefore(s', l.op.k, d)
      {
        StillNotBefore(s, t, l.op.k, d);
      }
    }
  }

  lemma StillNotBefore<V>(s: State<V>, t: nat, k: Key, d: nat)
    requires |s.cells| > 0 && t < |s.threads| && NotBefore(s, k, d)
    requires Act(s, t).threads[t].pc == WriteKey && s.threads[t].pc != WriteKey ==> s.threads[t].op.k != k
    ensures |Act(s, t).cells| == |s.cells| && NotBefore(Act(s, t), k, d)
  {
  }

  /** The acting thread's own probe. */
  lemma OwnProbe<V>(s: State<V>, t: nat)
    requires Orderly(s) && t < |s.threads|
    ensures |Act(s, t).cells| == |s.cells| && |Act(s, t).threads| == |s.threads| && ProbeOk(Act(s, t), t)
  {
    OnlyActor(s, t);
    assert ThreadOk(s, t) && ProbeOk(s, t);
    var s', l, j := Act(s, t), s.threads[t], Here(s, t);
    if Inserting(l) && l.pc in {Occ, Ready, Cmp, Cas} && s'.cells == s.cells {
      if !s.cells[j].occupied {
        EmptyEnds(s, l.op.k, l.i);
      } else if !Holds(s.cells[j], l.op.k) {
        OtherKey(s, t, j);
        NotBeforeGrows(s, l.op.k, l.i);
      }
    }
  }

  lemma ActOrderly<V>(s: State<V>, t: nat)
    requires Orderly(s) && t < |s.threads|
    ensures Orderly(Act(s, t))
  {
    NextInv(s, Step(t));
    OnlyActor(s, t);
    ActApart(s, t);
    forall j | 0 <= j < |s.cells| ensures OwnerOk(Act(s, t), j) { ActOwners(s, t, j); }
    forall u | 0 <= u < |s.threads|
      ensures ProbeOk(Act(s, t), u)
    {
      if u == t { OwnProbe(s, t); } else { OtherProbe(s, t, u); }
    }
  }

  lemma CallOrderly<V>(s: State<V>, t: nat, op: Op<V>)
    requires Orderly(s) && t < |s.threads| && AtRest(s.threads[t].pc) && Separate(s, Call(t, op))
    ensures Orderly(Next(s, Call(t, op)))
  {
    var s' := Next(s, Call(t, op));
    NextInv(s, Call(t, op));
    forall j | 0 <= j < |s.cells| ensures OwnerOk(s', j) { assert OwnerOk(s, j); }
    forall u | 0 <= u < |s.threads| ensures ProbeOk(s', u) { assert ProbeOk(s, u); }
  }

  /** What the cells show when an event without a claim takes effect. */
  ghost predicate Shown<V>(cells: seq<Cell<V>>, e: Event<V>) {
    match e
    case Added(_, _) => false
    case Rejected(k) => ClaimedIn(cells, k)
    case NoRoom(k) => !ClaimedIn(cells, k) && forall j :: 0 <= j < |cells| ==> cells[j].occupied
    case Found(k, v) => exists j :: 0 <= j < |cells| && ClaimFor(cells[j], k) && cells[j].claim.value.v == v
    case Missing(k) => !ClaimedIn(cells, k)
    case Tau => true
  }

  lemma {:induction false} ShownAllowed<V>(cells: seq<Cell<V>>, m: map<Key, V>, e: Event<V>)
    requires Agrees(cells, m) && Shown(cells, e)
    ensures Allowed(m, e, |cells|)
  {
    FullTable(cells);
  }

  /** A returning insert that claimed nothing: its key is claimed, or it is not and the table is full. */
  lemma InsertEvents<V>(s: State<V>, t: nat)
    requires Orderly(s) && t < |s.threads| && Inserting(s.threads[t]) && Act(s, t).threads[t].pc in {Duplicate, Full}
    ensures Act(s, t).threads[t].pc == Duplicate ==> Shown(s.cells, Rejected(s.threads[t].op.k))
    ensures Act(s, t).threads[t].pc == Full ==> Shown(s.cells, NoRoom(s.threads[t].op.k))
  {
    var l, j := s.threads[t], Here(s, t);
    assert ThreadOk(s, t) && ProbeOk(s, t) && CellOk(s, j);
    if Act(s, t).threads[t].pc == Full {
      InsertFailure(s, t);
      OtherKey(s, t, j);
      NotBeforeGrows(s, l.op.k, l.i);
      ClaimedNowhere(s, l.op.k);
    } else {
      assert ClaimFor(s.cells[j], l.op.k);
    }
  }

  /** A returning find: its value is that of a claim for its key, or there is none. */
  lemma FindEvents<V>(s: State<V>, t: nat)
    requires Inv(s) && t < |s.threads| && s.threads[t].op.Find? && s.threads[t].pc in {Occ, Ready, Cmp, Read}
    ensures var l, l' := s.threads[t], Act(s, t).threads[t];
            && (l'.pc == Yes ==> l'.out.Some? && Shown(s.cells, Found(l.op.k, l'.out.value)))
            && (l'.pc == Absent ==> Shown(s.cells, Missing(l.op.k)))
  {
    var l, j := s.threads[t], Here(s, t);
    assert ThreadOk(s, t) && CellOk(s, j);
    if Act(s, t).threads[t].pc == Absent {
      FindFailure(s, t);
      forall x | 0 <= x < |s.cells|
        ensures !ClaimFor(s.cells[x], l.op.k)
      {
        assert CellOk(s, x);
        assert ClaimFor(s.cells[x], l.op.k) ==> Claimed(s, l.op.k, s.cells[x].claim.value.depth);
      }
    }
  }

  /** What a claim does to its cell. */
  lemma ClaimMade<V>(s: State<V>, t: nat)
    requires Inv(s) && t < |s.threads| && Act(s, t).threads[t].pc == WriteKey
    ensures var l, j, s' := s.threads[t], Here(s, t), Act(s, t);
            && l.pc == Cas && l.op.Insert? && !s.cells[j].occupied && s'.cells == s.cells[j := s'.cells[j]]
            && s'.cells[j].occupied && s'.cells[j].claim == Some(Claim(l.op.k, l.op.v, l.i, t))
  {
    assert ThreadOk(s, t);
  }

  /** When a slot is claimed for a key, no other is. */
  lemma ClaimIsFirst<V>(s: State<V>, t: nat)
    requires Orderly(s) && t < |s.threads| && Act(s, t).threads[t].pc == WriteKey
    ensures !ClaimedIn(s.cells, s.threads[t].op.k)
  {
    ClaimMade(s, t);
    assert ProbeOk(s, t);
    ClaimedNowhere(s, s.threads[t].op.k);
  }

  /** A claim: the key was not in the map and there was room. */
  lemma AddEvent<V>(s: State<V>, m: map<Key, V>, t: nat)
    requires Inv(s) && Agrees(s.cells, m) && t < |s.threads| && Act(s, t).threads[t].pc == WriteKey
    requires !ClaimedIn(s.cells, s.threads[t].op.k)
    ensures var e := EventOf(s, Step(t));
            e.Added? && Allowed(m, e, |s.cells|) && Agrees(Act(s, t).cells, After(m, e))
  {
    ClaimMade(s, t);
    AgreesAdded(s.cells, m, Here(s, t), Act(s, t).cells[Here(s, t)]);
  }

  lemma OtherEvents<V>(s: State<V>, t: nat)
    requires Orderly(s) && t < |s.threads| && Act(s, t).threads[t].pc != WriteKey
    ensures Shown(s.cells, EventOf(s, Step(t)))
  {
    var l := s.threads[t];
    assert ThreadOk(s, t);
    if Inserting(l) {
      if Act(s, t).threads[t].pc in {Duplicate, Full} { InsertEvents(s, t); }
    } else if !AtRest(l.pc) {
      FindEvents(s, t);
    }
  }

  /** Every action that is not a claim is allowed, and leaves the map alone. */
  lemma OtherRefines<V>(s: State<V>, m: map<Key, V>, t: nat)
    requires Orderly(s) && Agrees(s.cells, m) && t < |s.threads| && Act(s, t).threads[t].pc != WriteKey
    ensures var e := EventOf(s, Step(t));
            !e.Added? && Allowed(m, e, |s.cells|) && Agrees(Act(s, t).cells, After(m, e))
  {
    OtherEvents(s, t);
    ShownAllowed(s.cells, m, EventOf(s, Step(t)));
    ClaimsKept(s, t);
    AgreesKept(s.cells, m, Here(s, t), Act(s, t).cells[Here(s, t)]);
  }

  /** Every action is a step of the atomic map. */
  lemma ActRefines<V>(s: State<V>, m: map<Key, V>, t: nat)
    requires Orderly(s) && Agrees(s.cells, m) && t < |s.threads|
    ensures var e := EventOf(s, Step(t));
            Allowed(m, e, |s.cells|) && Agrees(Act(s, t).cells, After(m, e))
  {
    if Act(s, t).threads[t].pc == WriteKey {
      ClaimIsFirst(s, t);
      AddEvent(s, m, t);
    } else {
      OtherRefines(s, m, t);
    }
  }

  lemma StepRefines<V>(s: State<V>, m: map<Key, V>, a: Label<V>)
    requires Orderly(s) && Agrees(s.cells, m) && Separate(s, a)
    ensures Orderly(Next(s, a))
    ensures Allowed(m, EventOf(s, a), |s.cells|) && Agrees(Next(s, a).cells, After(m, EventOf(s, a)))
  {
    if a.t < |s.threads| {
      if a.Step? {
        ActOrderly(s, a.t);
        ActRefines(s, m, a.t);
      } else if AtRest(s.threads[a.t].pc) {
        CallOrderly(s, a.t, a.op);
      }
    }
  }

  // ---------------------------------------------------------------- whole runs

  ghost function Events<V>(s: State<V>, run: seq<Label<V>>): seq<Event<V>>
    requires |s.cells| > 0
    decreases |run|
  {
    if run == [] then [] else NextShape(s, run[0]); [EventOf(s, run[0])] + Events(Next(s, run[0]), run[1..])
  }

  ghost function AfterAll<V>(m: map<Key, V>, es: seq<Event<V>>): map<Key, V>
    decreases |es|
  {
    if es == [] then m else AfterAll(After(m, es[0]), es[1..])
  }

  /** Main theorem: in every run in which no two inserts of one key overlap, whatever else overlaps, the table behaves
      as an atomic insert-only map of at most `Size` keys, and its claims are that map. */
  lemma {:induction false} RefinesMap<V>(s: State<V>, m: map<Key, V>, run: seq<Label<V>>)
    requires Orderly(s) && Agrees(s.cells, m) && SeparateRun(s, run)
    ensures var m' := AfterAll(m, Events(s, run));
            Behaves(m, Events(s, run), m', |s.cells|) && Orderly(Exec(s, run)) && Agrees(Exec(s, run).cells, m')
    decreases |run|
  {
    if run != [] {
      var a, s1 := run[0], Next(s, run[0]);
      NextShape(s, a);
      StepRefines(s, m, a);
      RefinesMap(s1, After(m, EventOf(s, a)), run[1..]);
      var es := Events(s, run);
      assert es[0] == EventOf(s, a) && es[1..] == Events(s1, run[1..]);
    }
  }

  /** From the constructor: no key is ever in two slots, and every ready slot shows the map. */
  lemma {:induction false} KeysUnique<V>(s: State<V>, run: seq<Label<V>>, i: nat, j: nat)
    requires Init(s) && SeparateRun(s, run) && i < |s.cells| && j < |s.cells|
    requires var r := Exec(s, run); r.cells[i].ready && r.cells[j].ready && r.cells[i].key == r.cells[j].key
    ensures i == j
  {
    InitOrderly(s);
    RefinesMap(s, map[], run);
    var r, m := Exec(s, run), AfterAll(map[], Events(s, run));
    assert CellOk(r, i) && CellOk(r, j);
    assert Distinct(r.cells);
  }
}

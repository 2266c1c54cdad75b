/** The insert-only hash map (include/lockless/hash_map.hpp) as a state machine over its single
    atomic actions: linear probing, claim by CAS, then key, value and ready flag. */
module HashTable {
  import opened Options

  /** A key together with its `std::hash` value. */
  datatype Key = Key(id: int, hash: nat)

  /** History of a successful claim CAS: which insert made it, at which probe depth. */
  datatype Claim<V> = Claim(k: Key, v: V, depth: nat, t: nat)

  datatype Cell<V> = Cell(occupied: bool, ready: bool, key: Key, value: V, claim: Option<Claim<V>>)

  datatype Op<V> = Insert(k: Key, v: V) | Find(k: Key)

  /** The next action of a thread: load `occupied`, load `ready`, compare keys, claim by CAS, write key,
      write value, set `ready`, read value; then returned true, or false for one of three reasons. */
  datatype PC = Idle | Occ | Ready | Cmp | Cas | WriteKey | WriteValue | Publish | Read
              | Yes | Duplicate | Full | Absent

  datatype Local<V> = Local(op: Op<V>, pc: PC, i: nat, out: Option<V>)

  datatype State<V> = State(cells: seq<Cell<V>>, threads: seq<Local<V>>)

  datatype Label<V> = Call(t: nat, op: Op<V>) | Step(t: nat)

  /** The slot at probe depth `d` of key `k`. */
  function At(k: Key, d: nat, n: nat): (j: nat)
    requires n > 0
    ensures j < n
  {
    (k.hash % n + d) % n
  }

  function SetLocal<V>(s: State<V>, t: nat, l: Local<V>): State<V>
    requires t < |s.threads|
  {
    s.(threads := s.threads[t := l])
  }

  function SetCell<V>(s: State<V>, j: nat, c: Cell<V>): State<V>
    requires j < |s.cells|
  {
    s.(cells := s.cells[j := c])
  }

  /** Go on to the next probe depth, or give up after the last one. */
  function Probe<V>(l: Local<V>, n: nat): Local<V> {
    if l.i + 1 < n then l.(pc := Occ, i := l.i + 1)
    else l.(pc := if l.op.Insert? then Full else Absent)
  }

  /** One atomic action of thread `t`. */
  function Act<V>(s: State<V>, t: nat): State<V>
    requires |s.cells| > 0 && t < |s.threads|
  {
    var l := s.threads[t];
    var n := |s.cells|;
    var j := At(l.op.k, l.i, n);
    var c := s.cells[j];
    match l.pc
    case Occ =>
      SetLocal(s, t, l.(pc := if c.occupied then Ready else if l.op.Insert? then Cas else Absent))
    case Ready =>
      SetLocal(s, t, if c.ready then l.(pc := Cmp) else if l.op.Insert? then Probe(l, n) else l)
    case Cmp =>
      SetLocal(s, t, if c.key != l.op.k then Probe(l, n) else l.(pc := if l.op.Insert? then Duplicate else Read))
    case Read => SetLocal(s, t, l.(pc := Yes, out := Some(c.value)))
    case Cas =>
      if c.occupied || l.op.Find? then SetLocal(s, t, Probe(l, n))
      else SetCell(SetLocal(s, t, l.(pc := WriteKey)), j,
                   c.(occupied := true, claim := Some(Claim(l.op.k, l.op.v, l.i, t))))
    case WriteKey => SetCell(SetLocal(s, t, l.(pc := WriteValue)), j, c.(key := l.op.k))
    case WriteValue =>
      if l.op.Find? then s else SetCell(SetLocal(s, t, l.(pc := Publish)), j, c.(value := l.op.v))
    case Publish => SetCell(SetLocal(s, t, l.(pc := Yes)), j, c.(ready := true))
    case _ => s
  }

  predicate AtRest(pc: PC) { pc in {Idle, Yes, Duplicate, Full, Absent} }

  function Next<V>(s: State<V>, a: Label<V>): State<V>
    requires |s.cells| > 0
  {
    match a
    case Call(t, op) =>
      if t < |s.threads| && AtRest(s.threads[t].pc) then SetLocal(s, t, Local(op, Occ, 0, None)) else s
    case Step(t) => if t < |s.threads| then Act(s, t) else s
  }

  lemma NextShape<V>(s: State<V>, a: Label<V>)
    requires |s.cells| > 0
    ensures |Next(s, a).cells| == |s.cells| && |Next(s, a).threads| == |s.threads|
  {
  }

  function Exec<V>(s: State<V>, run: seq<Label<V>>): (r: State<V>)
    requires |s.cells| > 0
    ensures |r.cells| == |s.cells| && |r.threads| == |s.threads|
    decreases |run|
  {
    if run == [] then s else NextShape(s, run[0]); Exec(Next(s, run[0]), run[1..])
  }

  predicate Init<V>(s: State<V>) {
    && |s.cells| > 0
    && (forall j :: 0 <= j < |s.cells| ==> !s.cells[j].occupied && !s.cells[j].ready && s.cells[j].claim == None)
    && forall t :: 0 <= t < |s.threads| ==> s.threads[t].pc == Idle
  }

  // ---------------------------------------------------------------- invariant

  /** Every slot of `k` before depth `d` is occupied. */
  ghost predicate Chain<V>(s: State<V>, k: Key, d: nat)
    requires |s.cells| > 0
  {
    forall e: nat {:trigger At(k, e, |s.cells|)} :: e < d ==> s.cells[At(k, e, |s.cells|)].occupied
  }

  /** Every slot of `k` before depth `d` is ready and holds another key. */
  ghost predicate Missed<V>(s: State<V>, k: Key, d: nat)
    requires |s.cells| > 0
  {
    forall e: nat {:trigger At(k, e, |s.cells|)} :: e < d ==>
      s.cells[At(k, e, |s.cells|)].ready && s.cells[At(k, e, |s.cells|)].key != k
  }

  /** The flags follow the claim, a ready cell holds what was claimed, and a claim was made only past
      occupied slots. */
  ghost predicate CellOk<V>(s: State<V>, j: nat)
    requires |s.cells| > 0 && j < |s.cells|
  {
    var c := s.cells[j];
    && (c.occupied <==> c.claim.Some?)
    && (c.ready ==> c.occupied && c.key == c.claim.value.k && c.value == c.claim.value.v)
    && (c.occupied ==>
          var m := c.claim.value;
          m.depth < |s.cells| && At(m.k, m.depth, |s.cells|) == j && Chain(s, m.k, m.depth))
  }

  ghost predicate ThreadOk<V>(s: State<V>, u: nat)
    requires |s.cells| > 0 && u < |s.threads|
  {
    var l := s.threads[u];
    var c := s.cells[At(l.op.k, l.i, |s.cells|)];
    && (!AtRest(l.pc) || l.pc == Yes ==> l.i < |s.cells|)
    && (!AtRest(l.pc) ==> Chain(s, l.op.k, l.i))
    && (l.pc in {Occ, Ready, Cmp, Read, Yes} && l.op.Find? ==> Missed(s, l.op.k, l.i))
    && (l.pc in {Ready, Cmp, Read} ==> c.occupied)
    && (l.pc in {Cmp, Read} ==> c.ready)
    && (l.pc == Read ==> c.key == l.op.k && l.op.Find?)
    && (l.pc in {Cas, WriteKey, WriteValue, Publish} ==> l.op.Insert?)
    && (l.pc in {WriteKey, WriteValue, Publish} ==>
          !c.ready && c.claim == Some(Claim(l.op.k, l.op.v, l.i, u)))
    && (l.pc in {WriteValue, Publish} ==> c.key == l.op.k)
    && (l.pc == Publish ==> c.value == l.op.v)
    && (l.pc == Yes ==>
          && c.ready && c.key == l.op.k
          && if l.op.Insert? then c.value == l.op.v else l.out == Some(c.value))
  }

  ghost predicate Inv<V>(s: State<V>) {
    && |s.cells| > 0
    && (forall j {:trigger s.cells[j]} :: 0 <= j < |s.cells| ==> CellOk(s, j))
    && forall u {:trigger s.threads[u]} :: 0 <= u < |s.threads| ==> ThreadOk(s, u)
  }

  lemma InitInv<V>(s: State<V>)
    requires Init(s)
    ensures Inv(s)
  {
    forall j | 0 <= j < |s.cells| ensures CellOk(s, j) { assert !s.cells[j].occupied; }
    forall u | 0 <= u < |s.threads| ensures ThreadOk(s, u) { assert s.threads[u].pc == Idle; }
  }

  /** A cell only moves forward: claims and flags stay, and a ready cell never changes. */
  ghost predicate Forward<V>(c: Cell<V>, c': Cell<V>) {
    && (c.occupied ==> c'.occupied && c'.claim == c.claim)
    && (c.ready ==> c' == c)
  }

  ghost predicate CellsForward<V>(s: State<V>, s': State<V>) {
    && |s'.cells| == |s.cells|
    && forall j {:trigger s.cells[j]} {:trigger s'.cells[j]} :: 0 <= j < |s.cells| ==> Forward(s.cells[j], s'.cells[j])
  }

  lemma ForwardKeeps<V>(s: State<V>, s': State<V>, k: Key, d: nat)
    requires |s.cells| > 0 && CellsForward(s, s')
    ensures Chain(s, k, d) ==> Chain(s', k, d)
    ensures Missed(s, k, d) ==> Missed(s', k, d)
  {
  }

  /** Actions that change only locals. */
  lemma LocalStep<V>(s: State<V>, t: nat, l': Local<V>)
    requires Inv(s) && t < |s.threads| && ThreadOk(SetLocal(s, t, l'), t)
    ensures Inv(SetLocal(s, t, l'))
  {
    var s' := SetLocal(s, t, l');
    forall j | 0 <= j < |s.cells| ensures CellOk(s', j) {
      assert CellOk(s, j);
      if s.cells[j].occupied { ForwardKeeps(s, s', s.cells[j].claim.value.k, s.cells[j].claim.value.depth); }
    }
    forall u | 0 <= u < |s.threads| && u != t ensures ThreadOk(s', u) {
      assert ThreadOk(s, u);
      ForwardKeeps(s, s', s.threads[u].op.k, s.threads[u].i);
    }
  }

  /** Actions on a cell: the claim, and the three stores of its claimant. */
  lemma CellStep<V>(s: State<V>, t: nat, l': Local<V>, j: nat, c': Cell<V>)
    requires Inv(s) && t < |s.threads| && j < |s.cells| && Forward(s.cells[j], c')
    requires s.cells[j].occupied ==> s.cells[j].claim.value.t == t
    requires c'.occupied && c'.claim.Some? && c'.claim.value.t == t
    requires ThreadOk(SetCell(SetLocal(s, t, l'), j, c'), t)
    requires CellOk(SetCell(SetLocal(s, t, l'), j, c'), j)
    ensures Inv(SetCell(SetLocal(s, t, l'), j, c'))
  {
    var s' := SetCell(SetLocal(s, t, l'), j, c');
    assert CellsForward(s, s');
    forall x | 0 <= x < |s.cells| && x != j ensures CellOk(s', x) {
      assert CellOk(s, x);
      if s.cells[x].occupied { ForwardKeeps(s, s', s.cells[x].claim.value.k, s.cells[x].claim.value.depth); }
    }
    forall u | 0 <= u < |s.threads| && u != t ensures ThreadOk(s', u) {
      OtherThread(s, t, l', j, c', u);
    }
  }

  lemma OtherThread<V>(s: State<V>, t: nat, l': Local<V>, j: nat, c': Cell<V>, u: nat)
    requires Inv(s) && t < |s.threads| && j < |s.cells| && Forward(s.cells[j], c')
    requires s.cells[j].occupied ==> s.cells[j].claim.value.t == t
    requires u < |s.threads| && u != t
    ensures ThreadOk(SetCell(SetLocal(s, t, l'), j, c'), u)
  {
    var s' := SetCell(SetLocal(s, t, l'), j, c');
    assert CellsForward(s, s');
    assert ThreadOk(s, u);
    assert CellOk(s, At(s.threads[u].op.k, s.threads[u].i, |s.cells|));
    ForwardKeeps(s, s', s.threads[u].op.k, s.threads[u].i);
  }

  lemma ChainGrows<V>(s: State<V>, k: Key, d: nat)
    requires |s.cells| > 0 && Chain(s, k, d) && s.cells[At(k, d, |s.cells|)].occupied
    ensures Chain(s, k, d + 1)
  {
  }

  lemma MissedGrows<V>(s: State<V>, k: Key, d: nat)
    requires |s.cells| > 0 && Missed(s, k, d)
    requires s.cells[At(k, d, |s.cells|)].ready && s.cells[At(k, d, |s.cells|)].key != k
    ensures Missed(s, k, d + 1)
  {
  }

  /** The slot that thread `t` works on. */
  function Here<V>(s: State<V>, t: nat): (j: nat)
    requires |s.cells| > 0 && t < |s.threads|
    ensures j < |s.cells|
  {
    At(s.threads[t].op.k, s.threads[t].i, |s.cells|)
  }

  /** Loads and comparisons keep the invariant. */
  lemma ReadInv<V>(s: State<V>, t: nat)
    requires Inv(s) && t < |s.threads|
    requires s.threads[t].pc in {Occ, Ready, Cmp, Read} || (s.threads[t].pc == Cas && s.cells[Here(s, t)].occupied)
    ensures Inv(Act(s, t))
  {
    var l := s.threads[t];
    assert ThreadOk(s, t);
    var j := At(l.op.k, l.i, |s.cells|);
    assert CellOk(s, j);
    if s.cells[j].occupied { ChainGrows(s, l.op.k, l.i); }
    if l.pc == Cmp && l.op.Find? && s.cells[j].key != l.op.k { MissedGrows(s, l.op.k, l.i); }
    var s' := Act(s, t);
    ForwardKeeps(s, s', l.op.k, l.i);
    ForwardKeeps(s, s', l.op.k, l.i + 1);
    LocalStep(s, t, s'.threads[t]);
  }

  /** The claim and the stores keep the invariant. */
  lemma WriteInv<V>(s: State<V>, t: nat)
    requires Inv(s) && t < |s.threads|
    requires s.threads[t].pc in {WriteKey, WriteValue, Publish, Cas}
    requires s.threads[t].pc == Cas ==> !s.cells[Here(s, t)].occupied
    ensures Inv(Act(s, t))
  {
    var l := s.threads[t];
    assert ThreadOk(s, t);
    var j := At(l.op.k, l.i, |s.cells|);
    assert CellOk(s, j);
    var s' := Act(s, t);
    assert CellsForward(s, s');
    ForwardKeeps(s, s', l.op.k, l.i);
    CellStep(s, t, s'.threads[t], j, s'.cells[j]);
  }

  /** Every atomic action keeps the invariant, and cells only move forward. */
  lemma NextInv<V>(s: State<V>, a: Label<V>)
    requires Inv(s)
    ensures Inv(Next(s, a))
  {
    if a.t < |s.threads| {
      var t, l := a.t, s.threads[a.t];
      if a.Call? {
        if AtRest(l.pc) { LocalStep(s, t, Local(a.op, Occ, 0, None)); }
      } else if l.pc in {Occ, Ready, Cmp, Read} || (l.pc == Cas && s.cells[At(l.op.k, l.i, |s.cells|)].occupied) {
        ReadInv(s, t);
      } else if l.pc in {Cas, WriteKey, WriteValue, Publish} {
        WriteInv(s, t);
      }
    }
  }

  lemma NextForward<V>(s: State<V>, a: Label<V>)
    requires Inv(s)
    ensures CellsForward(s, Next(s, a))
  {
    if a.Step? && a.t < |s.threads| { assert ThreadOk(s, a.t); }
  }

  lemma {:induction false} ExecInv<V>(s: State<V>, run: seq<Label<V>>)
    requires Inv(s)
    ensures Inv(Exec(s, run)) && CellsForward(s, Exec(s, run))
    decreases |run|
  {
    if run != [] {
      NextInv(s, run[0]);
      NextForward(s, run[0]);
      ExecInv(Next(s, run[0]), run[1..]);
    }
  }
}

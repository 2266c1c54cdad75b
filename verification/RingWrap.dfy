/** The ring buffer on real machine words: 64-bit wrapping counters, `& mask_` and the signed
    difference of include/lockless/ring_buffer.hpp, shown to take the same steps as the
    unbounded machine of module Ring. */
module RingWrap {
  import opened Options
  import opened Arith
  import opened Ring
  import opened RingInv

  const HALF: int := 0x8000_0000_0000_0000

  /** Wrapping a position to a machine word keeps its slot when the size divides the word. */
  lemma WrapKeepsMod(p: nat, w: nat, n: nat, m: nat)
    requires n > 0 && w == n * m && m > 0
    ensures (p % w) % n == p % n
  {
    DivMod(p, w);
    DivMod(p % w, n);
    var a, b, c := p / w, p % w / n, p % w % n;
    assert n * (m * a + b) == n * (m * a) + n * b;
    assert w * a == n * (m * a);
    ModUnique(p, n, m * a + b, c);
  }

  lemma {:induction false} PowDivides(k: nat, j: nat)
    requires k <= j
    ensures Pow2(j) == Pow2(k) * Pow2(j - k)
    decreases j - k
  {
    if k < j {
      PowDivides(k, j - 1);
      assert Pow2(j - k) == 2 * Pow2(j - 1 - k);
    }
  }

  lemma SmallPowers()
    ensures Pow2(16) == 0x1_0000
  {
    assert Pow2(4) == 16;
    PowDivides(4, 8);
    PowDivides(8, 16);
  }

  lemma WordIsPow()
    ensures Pow2(64) == WORD && Pow2(63) == HALF
  {
    SmallPowers();
    PowDivides(16, 32);
    assert Pow2(32) == 0x1_0000_0000;
    PowDivides(32, 64);
    assert Pow2(64) == 2 * Pow2(63);
  }

  /** The slot computed with the mask on the wrapped position is the slot of the true position. */
  lemma MaskedSlot(p: nat, k: nat)
    requires k <= 62
    ensures And(p % WORD, Pow2(k) - 1) == Slot(p, Pow2(k))
  {
    MaskIsMod(p % WORD, k);
    WordIsPow();
    PowDivides(k, 64);
    WrapKeepsMod(p, WORD, Pow2(k), Pow2(64 - k));
  }

  /** `(intptr_t)a - (intptr_t)b` in two's complement. */
  function SignedDiff(a: nat, b: nat): (d: int)
    ensures -HALF <= d < HALF
  {
    var d := (a - b) % WORD;
    if d < HALF then d else d - WORD
  }

  /** The signed difference of wrapped words is the true difference while that fits. */
  lemma SignedDiffExact(a: nat, b: nat)
    requires -HALF <= a - b < HALF
    ensures SignedDiff(a % WORD, b % WORD) == a - b
  {
  }

  lemma WrappedEqual(a: nat, b: nat)
    requires b <= a < b + WORD
    ensures a % WORD == b % WORD <==> a == b
  {
    if a % WORD == b % WORD { ModInjective(a, b, WORD); }
  }

  lemma WrapAdd(a: nat, d: nat)
    ensures (a % WORD + d) % WORD == (a + d) % WORD
  {
  }

  /** One atomic action exactly as the code computes it: masked index, wrapped additions, and the
      branch taken on the sign of the difference. `mask` is `Size - 1`. */
  function ActWord<T>(s: State<T>, t: nat, spurious: bool, mask: nat): State<T>
    requires WellShaped(s) && t < |s.threads| && mask == s.Size() - 1
  {
    var l := s.threads[t];
    var i := And(l.pos, mask);
    var c := Counter(s, l.op);
    match l.pc
    case Load => SetLocal(s, t, l.(pc := Seq, start := 0, pos := c, retries := 0))
    case Seq =>
      var diff := SignedDiff(s.seqs[i], if l.op.Push? then l.pos else (l.pos + 1) % WORD);
      SetLocal(s, t, l.(pc := if diff == 0 then Cas else if diff < 0 then Lost else Reload))
    case Cas =>
      if c == l.pos && !spurious then
        var s1 := SetLocal(s, t, l.(pc := Data));
        match l.op
        case Push(x) => s1.(head := (s.head + 1) % WORD)
        case Pop => s1.(tail := (s.tail + 1) % WORD)
      else
        SetLocal(s, t, l.(pc := Seq, pos := c))
    case Reload => SetLocal(s, t, l.(pc := Seq, pos := c))
    case Data =>
      (match l.op
       case Push(x) => SetLocal(s, t, l.(pc := Store)).(buf := s.buf[i := x])
       case Pop => SetLocal(s, t, l.(pc := Store, out := Some(s.buf[i]))))
    case Store =>
      var v := if l.op.Push? then (l.pos + 1) % WORD else (l.pos + mask + 1) % WORD;
      SetLocal(s, t, l.(pc := Won)).(seqs := s.seqs[i := v])
    case _ => s
  }

  /** What the machine words of a state are: counters wrapped, history forgotten. */
  function WrapLocal<T>(l: Local<T>): Local<T> {
    l.(pos := l.pos % WORD, start := 0, retries := 0)
  }

  function WrapSeqs(q: seq<nat>): (r: seq<nat>)
    ensures |r| == |q| && forall i :: 0 <= i < |q| ==> r[i] == q[i] % WORD
  {
    seq(|q|, i requires 0 <= i < |q| => q[i] % WORD)
  }

  function WrapThreads<T>(q: seq<Local<T>>): (r: seq<Local<T>>)
    ensures |r| == |q| && forall i :: 0 <= i < |q| ==> r[i] == WrapLocal(q[i])
  {
    seq(|q|, i requires 0 <= i < |q| => WrapLocal(q[i]))
  }

  function Wrap<T>(s: State<T>): (r: State<T>)
    ensures WellShaped(s) ==> |r.seqs| == |s.seqs| && |r.threads| == |s.threads|
  {
    s.(seqs := WrapSeqs(s.seqs), head := s.head % WORD, tail := s.tail % WORD,
       log := [], holder := seq(|s.seqs|, i => 0), threads := WrapThreads(s.threads))
  }

  /** The acting thread read its counter fewer than `2^63 - Size` claims ago. */
  predicate Close<T>(s: State<T>, t: nat)
    requires t < |s.threads|
  {
    var l := s.threads[t];
    l.pc in {Seq, Cas} ==> Counter(s, l.op) - l.pos < HALF - s.Size()
  }

  lemma {:induction false} WrapSet<T>(q: seq<Local<T>>, t: nat, l: Local<T>)
    requires t < |q|
    ensures WrapThreads(q[t := l]) == WrapThreads(q)[t := WrapLocal(l)]
  {
  }

  lemma SizeFits(k: nat)
    requires k <= 62
    ensures 2 * Pow2(k) <= HALF
  {
    WordIsPow();
    PowDivides(k, 62);
    assert Pow2(k) * 1 <= Pow2(k) * Pow2(62 - k);
    assert Pow2(63) == 2 * Pow2(62);
  }

  /** The true difference fits into a signed word. */
  lemma DiffFits<T>(s: State<T>, t: nat, k: nat)
    requires Inv(s) && t < |s.threads| && s.threads[t].pc == Seq && Close(s, t)
    requires k <= 62 && s.Size() == Pow2(k)
    ensures var l := s.threads[t];
            -HALF <= s.seqs[Slot(l.pos, s.Size())] - Expected(l.op, l.pos) < HALF
  {
    var l := s.threads[t];
    assert ThreadOk(s, t);
    SlotRange(s, Slot(l.pos, s.Size()), l.pos);
    SizeFits(k);
  }

  /** The branch taken on the signed difference of words is the branch of the true comparison. */
  lemma SameBranch<T>(s: State<T>, t: nat, k: nat)
    requires Inv(s) && t < |s.threads| && s.threads[t].pc == Seq && Close(s, t)
    requires k <= 62 && s.Size() == Pow2(k)
    ensures var l := s.threads[t]; var q := s.seqs[Slot(l.pos, s.Size())];
            SignedDiff(q % WORD, if l.op.Push? then l.pos % WORD else (l.pos % WORD + 1) % WORD)
              == q - Expected(l.op, l.pos)
  {
    var l := s.threads[t];
    DiffFits(s, t, k);
    SignedDiffExact(s.seqs[Slot(l.pos, s.Size())], Expected(l.op, l.pos));
    WrapAdd(l.pos, 1);
  }

  /** Every sequence number lies within a lap of the counters. */
  lemma SlotRange<T>(s: State<T>, i: nat, pos: nat)
    requires Inv(s) && i == Slot(pos, s.Size()) && pos <= s.head
    ensures s.tail - s.Size() <= s.seqs[i] <= s.tail + s.Size()
  {
    var q := Lap(pos, s.tail, s.Size());
    assert SlotOk(s, q);
  }

  /** The masked slot agrees; what remains to be shown of one action. */
  ghost predicate Masked<T>(s: State<T>, t: nat, mask: nat) {
    WellShaped(s) && t < |s.threads| && mask == s.Size() - 1
    && And(s.threads[t].pos % WORD, mask) == Slot(s.threads[t].pos, s.Size())
  }

  lemma CasWraps<T>(s: State<T>, t: nat, spurious: bool, mask: nat)
    requires Masked(s, t, mask) && s.threads[t].pc == Cas
    requires s.threads[t].pos <= Counter(s, s.threads[t].op) < s.threads[t].pos + WORD
    ensures ActWord(Wrap(s), t, spurious, mask) == Wrap(Act(s, t, spurious))
  {
    var l := s.threads[t];
    var c := Counter(s, l.op);
    WrapSet(s.threads, t, Act(s, t, spurious).threads[t]);
    WrappedEqual(c, l.pos);
    WrapAdd(c, 1);
  }

  lemma StoreWraps<T>(s: State<T>, t: nat, spurious: bool, mask: nat)
    requires Masked(s, t, mask) && s.threads[t].pc == Store
    ensures ActWord(Wrap(s), t, spurious, mask) == Wrap(Act(s, t, spurious))
  {
    var l := s.threads[t];
    var n := s.Size();
    WrapSet(s.threads, t, l.(pc := Won));
    WrapAdd(l.pos, 1);
    WrapAdd(l.pos, n);
    assert WrapSeqs(Act(s, t, spurious).seqs)
        == WrapSeqs(s.seqs)[Slot(l.pos, n) := Released(l.op, l.pos, n) % WORD];
  }

  lemma OtherWraps<T>(s: State<T>, t: nat, spurious: bool, mask: nat)
    requires Masked(s, t, mask) && s.threads[t].pc !in {Seq, Cas, Store}
    ensures ActWord(Wrap(s), t, spurious, mask) == Wrap(Act(s, t, spurious))
  {
    WrapSet(s.threads, t, Act(s, t, spurious).threads[t]);
  }

  /** One action on machine words is one action of the unbounded machine. */
  lemma ActWraps<T>(s: State<T>, t: nat, spurious: bool, k: nat)
    requires Inv(s) && t < |s.threads| && Close(s, t) && k <= 62 && s.Size() == Pow2(k)
    ensures ActWord(Wrap(s), t, spurious, Pow2(k) - 1) == Wrap(Act(s, t, spurious))
  {
    var l := s.threads[t];
    MaskedSlot(l.pos, k);
    assert Masked(s, t, Pow2(k) - 1);
    match l.pc {
      case Seq =>
        SameBranch(s, t, k);
        WrapSet(s.threads, t, Act(s, t, spurious).threads[t]);
      case Cas =>
        assert ThreadOk(s, t);
        SizeFits(k);
        CasWraps(s, t, spurious, Pow2(k) - 1);
      case Store => StoreWraps(s, t, spurious, Pow2(k) - 1);
      case _ => OtherWraps(s, t, spurious, Pow2(k) - 1);
    }
  }

  function NextWord<T>(s: State<T>, a: Label<T>, mask: nat): State<T>
    requires WellShaped(s) && mask == s.Size() - 1
  {
    match a
    case Call(t, op) => Next(s, a)
    case Step(t, spurious) => if t < |s.threads| then ActWord(s, t, spurious, mask) else s
  }

  lemma NextWordShape<T>(s: State<T>, a: Label<T>, mask: nat)
    requires WellShaped(s) && mask == s.Size() - 1
    ensures WellShaped(NextWord(s, a, mask)) && mask == NextWord(s, a, mask).Size() - 1
  {
  }

  function ExecWord<T>(s: State<T>, run: seq<Label<T>>, mask: nat): State<T>
    requires WellShaped(s) && mask == s.Size() - 1
    decreases |run|
  {
    if run == [] then s
    else NextWordShape(s, run[0], mask); ExecWord(NextWord(s, run[0], mask), run[1..], mask)
  }

  /** In every state of the run the acting thread is `Close`: no call outlasts `2^63 - Size` claims. */
  predicate CloseRun<T>(s: State<T>, run: seq<Label<T>>)
    requires WellShaped(s)
    decreases |run|
  {
    run != [] ==>
      && (run[0].Step? && run[0].t < |s.threads| ==> Close(s, run[0].t))
      && (NextShape(s, run[0]); CloseRun(Next(s, run[0]), run[1..]))
  }

  /** Wraparound refinement: whole runs on 64-bit words follow the unbounded machine step by step. */
  lemma {:induction false} ExecWraps<T>(s: State<T>, run: seq<Label<T>>, k: nat)
    requires Inv(s) && k <= 62 && s.Size() == Pow2(k) && CloseRun(s, run)
    ensures ExecWord(Wrap(s), run, Pow2(k) - 1) == Wrap(Exec(s, run))
    decreases |run|
  {
    if run != [] {
      NextInv(s, run[0]);
      NextShape(s, run[0]);
      match run[0] {
        case Call(t, op) =>
          if t < |s.threads| { WrapSet(s.threads, t, Local(op, Load, 0, 0, 0, None)); }
        case Step(t, spurious) =>
          if t < |s.threads| { ActWraps(s, t, spurious, k); }
      }
      assert NextWord(Wrap(s), run[0], Pow2(k) - 1) == Wrap(Next(s, run[0]));
      ExecWraps(Next(s, run[0]), run[1..], k);
    }
  }
}

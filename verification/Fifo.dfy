/** The bounded first-in first-out queue that the ring buffer and the single-producer queue implement. */
module Fifo {

  /** The specification: an atomic first-in first-out queue holding at most `n` items. */
  datatype Event<T> = Enq(x: T) | Deq(y: T) | Tau

  ghost predicate FifoStep<T>(q: seq<T>, e: Event<T>, q': seq<T>, n: nat) {
    match e
    case Enq(x) => |q| < n && q' == q + [x]
    case Deq(y) => q == [y] + q'
    case Tau => q' == q
  }

  /** `es` is a behaviour of the bounded FIFO from contents `q` to contents `q'`. */
  ghost predicate Behaves<T>(q: seq<T>, es: seq<Event<T>>, q': seq<T>, n: nat)
    decreases |es|
  {
    if es == [] then q == q'
    else match es[0]
      case Enq(x) => |q| < n && Behaves(q + [x], es[1..], q', n)
      case Deq(y) => q != [] && q[0] == y && Behaves(q[1..], es[1..], q', n)
      case Tau => Behaves(q, es[1..], q', n)
  }

  /** The items a list of events enqueues, and those it dequeues. */
  ghost function Enqueued<T>(es: seq<Event<T>>): seq<T> {
    if es == [] then [] else EnqItem(es[0]) + Enqueued(es[1..])
  }

  ghost function EnqItem<T>(e: Event<T>): seq<T> {
    if e.Enq? then [e.x] else []
  }

  ghost function Dequeued<T>(es: seq<Event<T>>): seq<T> {
    if es == [] then [] else (if es[0].Deq? then [es[0].y] else []) + Dequeued(es[1..])
  }

  /** Conservation: what was in the queue followed by what a run enqueues is what it dequeues
      followed by what is left, so every item leaves exactly once and in order. */
  lemma {:induction false} FifoConserves<T>(q: seq<T>, es: seq<Event<T>>, q': seq<T>, n: nat)
    requires Behaves(q, es, q', n)
    ensures q + Enqueued(es) == Dequeued(es) + q'
    decreases |es|
  {
    if es != [] {
      match es[0]
      case Enq(x) =>
        FifoConserves(q + [x], es[1..], q', n);
        assert q + ([x] + Enqueued(es[1..])) == (q + [x]) + Enqueued(es[1..]);
      case Deq(y) =>
        FifoConserves(q[1..], es[1..], q', n);
        assert q == [y] + q[1..];
        assert q + Enqueued(es) == [y] + (q[1..] + Enqueued(es[1..]));
      case Tau =>
        FifoConserves(q, es[1..], q', n);
        assert Enqueued(es) == Enqueued(es[1..]) && Dequeued(es) == Dequeued(es[1..]);
    }
  }
}

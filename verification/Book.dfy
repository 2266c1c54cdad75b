/** The order book (include/lockless/order_book.hpp): what processing a sequence of orders computes. */
module Book {
  import opened Arith

  const MAX: nat := 0xFFFF_FFFF_FFFF_FFFF

  datatype Side = BUY | SELL

  datatype Order = Order(id: nat, side: Side, price: nat, quantity: nat, timestamp: nat)

  /** The five atomics of the book. `bid == 0` and `ask == MAX` mean none. */
  datatype Book = Book(bid: nat, ask: nat, buys: nat, sells: nat, matched: nat)

  const EMPTY := Book(0, MAX, 0, 0, 0)

  function Min(a: nat, b: nat): (r: nat)
    ensures r <= a && r <= b && (r == a || r == b)
  {
    if a < b then a else b
  }

  /** `process_single_order`, with a single processing thread; additions wrap at 64 bits. */
  function Process(b: Book, o: Order): Book {
    match o.side
    case BUY =>
      if b.ask != MAX && o.price >= b.ask then
        b.(matched := (b.matched + 1) % WORD, sells := b.sells - Min(o.quantity, b.sells))
      else
        b.(buys := (b.buys + o.quantity) % WORD, bid := if o.price > b.bid then o.price else b.bid)
    case SELL =>
      if b.bid != 0 && o.price <= b.bid then
        b.(matched := (b.matched + 1) % WORD, buys := b.buys - Min(o.quantity, b.buys))
      else
        b.(sells := (b.sells + o.quantity) % WORD, ask := if o.price < b.ask then o.price else b.ask)
  }

  /** Orders processed one after another. */
  function Fold(b: Book, orders: seq<Order>): Book
    decreases |orders|
  {
    if orders == [] then b else Fold(Process(b, orders[0]), orders[1..])
  }

  /** Batch independence: how a sequence is cut into batches does not matter. */
  lemma {:induction false} FoldSplit(b: Book, xs: seq<Order>, ys: seq<Order>)
    ensures Fold(b, xs + ys) == Fold(Fold(b, xs), ys)
    decreases |xs|
  {
    if xs == [] {
      assert xs + ys == ys;
    } else {
      FoldSplit(Process(b, xs[0]), xs[1..], ys);
      assert (xs + ys)[1..] == xs[1..] + ys;
    }
  }

  lemma {:induction false} FoldSnoc(b: Book, xs: seq<Order>, o: Order)
    ensures Fold(b, xs + [o]) == Process(Fold(b, xs), o)
  {
    FoldSplit(b, xs, [o]);
    assert [o][1..] == [];
    assert Fold(Fold(b, xs), [o]) == Fold(Process(Fold(b, xs), o), []);
  }

  // ---------------------------------------------------------------- reference: resting orders

  /** An incoming order crosses a resting one of the other side. */
  predicate Crosses(o: Order, x: Order) {
    o.side != x.side && if o.side == BUY then o.price >= x.price else o.price <= x.price
  }

  predicate CrossesAny(o: Order, resting: seq<Order>) {
    exists i :: 0 <= i < |resting| && Crosses(o, resting[i])
  }

  /** The orders that matched nothing on arrival, in order of arrival. */
  function Resting(orders: seq<Order>): seq<Order> {
    if orders == [] then []
    else
      var rest := Resting(orders[..|orders| - 1]);
      var o := orders[|orders| - 1];
      if CrossesAny(o, rest) then rest else rest + [o]
  }

  /** A price that the book can tell from its sentinels: no buy at UINT64_MAX and no sell at 0. */
  predicate ProperPrice(side: Side, price: nat) {
    price <= MAX && if side == BUY then price != MAX else price != 0
  }

  predicate Proper(orders: seq<Order>) {
    forall i :: 0 <= i < |orders| ==> ProperPrice(orders[i].side, orders[i].price)
  }

  /** `bid` is the highest resting buy price, 0 if there is none. */
  ghost predicate IsBestBid(bid: nat, resting: seq<Order>) {
    && (forall i :: 0 <= i < |resting| && resting[i].side == BUY ==> resting[i].price <= bid)
    && (bid != 0 ==> exists i :: 0 <= i < |resting| && resting[i].side == BUY && resting[i].price == bid)
  }

  /** `ask` is the lowest resting sell price, MAX if there is none. */
  ghost predicate IsBestAsk(ask: nat, resting: seq<Order>) {
    && (forall i :: 0 <= i < |resting| && resting[i].side == SELL ==> resting[i].price >= ask)
    && (ask != MAX ==> exists i :: 0 <= i < |resting| && resting[i].side == SELL && resting[i].price == ask)
  }

  /** Comparing with the best price decides whether any resting order is crossed. */
  lemma {:induction false} BestDecides(b: Book, resting: seq<Order>, o: Order)
    requires Proper(resting) && IsBestBid(b.bid, resting) && IsBestAsk(b.ask, resting) && ProperPrice(o.side, o.price)
    ensures o.side == BUY ==> (CrossesAny(o, resting) <==> b.ask != MAX && o.price >= b.ask)
    ensures o.side == SELL ==> (CrossesAny(o, resting) <==> b.bid != 0 && o.price <= b.bid)
  {
    if o.side == BUY && b.ask != MAX && o.price >= b.ask {
      var i :| 0 <= i < |resting| && resting[i].side == SELL && resting[i].price == b.ask;
      assert Crosses(o, resting[i]);
    }
    if o.side == SELL && b.bid != 0 && o.price <= b.bid {
      var i :| 0 <= i < |resting| && resting[i].side == BUY && resting[i].price == b.bid;
      assert Crosses(o, resting[i]);
    }
  }

  lemma {:induction false} BidGrows(bid: nat, resting: seq<Order>, o: Order)
    requires IsBestBid(bid, resting)
    ensures o.side == BUY ==> IsBestBid(if o.price > bid then o.price else bid, resting + [o])
    ensures o.side == SELL ==> IsBestBid(bid, resting + [o])
  {
    var all := resting + [o];
    assert all[|resting|] == o;
    if bid != 0 {
      var i :| 0 <= i < |resting| && resting[i].side == BUY && resting[i].price == bid;
      assert all[i] == resting[i];
    }
  }

  lemma {:induction false} AskFalls(ask: nat, resting: seq<Order>, o: Order)
    requires IsBestAsk(ask, resting)
    ensures o.side == SELL ==> IsBestAsk(if o.price < ask then o.price else ask, resting + [o])
    ensures o.side == BUY ==> IsBestAsk(ask, resting + [o])
  {
    var all := resting + [o];
    assert all[|resting|] == o;
    if ask != MAX {
      var i :| 0 <= i < |resting| && resting[i].side == SELL && resting[i].price == ask;
      assert all[i] == resting[i];
    }
  }

  lemma {:induction false} RestingProper(orders: seq<Order>)
    requires Proper(orders)
    ensures Proper(Resting(orders)) && |Resting(orders)| <= |orders|
  {
    if orders != [] { RestingProper(orders[..|orders| - 1]); }
  }

  /** The book of the resting orders after `n` orders. */
  ghost predicate Reflects(b: Book, resting: seq<Order>, n: int) {
    && IsBestBid(b.bid, resting) && IsBestAsk(b.ask, resting)
    && b.matched == (n - |resting|) % WORD && b.bid < b.ask
  }

  lemma {:induction false} ReflectsStep(b: Book, rest: seq<Order>, n: int, o: Order)
    requires Reflects(b, rest, n) && Proper(rest) && ProperPrice(o.side, o.price)
    ensures Reflects(Process(b, o), if CrossesAny(o, rest) then rest else rest + [o], n + 1)
  {
    BestDecides(b, rest, o);
    BidGrows(b.bid, rest, o);
    AskFalls(b.ask, rest, o);
  }

  /** Main theorem: after any sequence of properly priced orders, the book's best prices are the best of the
      resting orders, the rest of the orders are counted as matched, and the book is not crossed. */
  lemma {:induction false} BookIsResting(orders: seq<Order>)
    requires Proper(orders)
    ensures Reflects(Fold(EMPTY, orders), Resting(orders), |orders|)
    decreases |orders|
  {
    if orders != [] {
      var n := |orders| - 1;
      var front, o := orders[..n], orders[n];
      assert orders == front + [o];
      BookIsResting(front);
      RestingProper(front);
      FoldSnoc(EMPTY, front, o);
      ReflectsStep(Fold(EMPTY, front), Resting(front), n, o);
    }
  }

  /** A single order crosses the empty book exactly at the two sentinel prices: a buy at UINT64_MAX, or a
      sell at 0. */
  lemma SentinelPrices(o: Order)
    requires o.price <= MAX
    ensures var b := Process(EMPTY, o);
            b.bid < b.ask <==> !(o.side == BUY && o.price == MAX) && !(o.side == SELL && o.price == 0)
  {
  }

  /** The sides and prices in `allowed` are safe: no sequence of such orders crosses the book. */
  ghost predicate SafePrices(allowed: (Side, nat) -> bool) {
    forall orders: seq<Order> :: (forall i :: 0 <= i < |orders| ==> allowed(orders[i].side, orders[i].price))
      ==> Fold(EMPTY, orders).bid < Fold(EMPTY, orders).ask
  }

  /** The book is never crossed exactly when no buy is priced UINT64_MAX and no sell 0, whatever else is. */
  lemma PricesExactly(allowed: (Side, nat) -> bool)
    requires forall side, price: nat :: allowed(side, price) ==> price <= MAX
    ensures SafePrices(allowed) <==> !allowed(BUY, MAX) && !allowed(SELL, 0)
  {
    if !allowed(BUY, MAX) && !allowed(SELL, 0) {
      forall orders: seq<Order> | forall i :: 0 <= i < |orders| ==> allowed(orders[i].side, orders[i].price)
        ensures Fold(EMPTY, orders).bid < Fold(EMPTY, orders).ask
      {
        BookIsResting(orders);
      }
    } else {
      var o := if allowed(SELL, 0) then Order(0, SELL, 0, 0, 0) else Order(0, BUY, MAX, 0, 0);
      SentinelPrices(o);
      assert [o][1..] == [];
      assert Fold(EMPTY, [o]) == Process(EMPTY, o);
      assert !(Fold(EMPTY, [o]).bid < Fold(EMPTY, [o]).ask);
    }
  }

  // ---------------------------------------------------------------- quantities

  ghost function Sum(orders: seq<Order>, side: Side): nat {
    if orders == [] then 0
    else Sum(orders[..|orders| - 1], side)
         + if orders[|orders| - 1].side == side then orders[|orders| - 1].quantity else 0
  }

  lemma {:induction false} SumSnoc(orders: seq<Order>, o: Order, side: Side)
    ensures Sum(orders + [o], side) == Sum(orders, side) + if o.side == side then o.quantity else 0
  {
    assert (orders + [o])[..|orders|] == orders;
  }

  /** `process_single_order` on unbounded integers. */
  function Exact(b: Book, o: Order): Book {
    match o.side
    case BUY =>
      if b.ask != MAX && o.price >= b.ask then
        b.(matched := b.matched + 1, sells := b.sells - Min(o.quantity, b.sells))
      else
        b.(buys := b.buys + o.quantity, bid := if o.price > b.bid then o.price else b.bid)
    case SELL =>
      if b.bid != 0 && o.price <= b.bid then
        b.(matched := b.matched + 1, buys := b.buys - Min(o.quantity, b.buys))
      else
        b.(sells := b.sells + o.quantity, ask := if o.price < b.ask then o.price else b.ask)
  }

  function FoldExact(orders: seq<Order>): Book {
    if orders == [] then EMPTY else Exact(FoldExact(orders[..|orders| - 1]), orders[|orders| - 1])
  }

  /** On unbounded integers the totals do not exceed what was submitted. */
  lemma {:induction false} ExactBounded(orders: seq<Order>)
    ensures var b := FoldExact(orders);
            b.buys <= Sum(orders, BUY) && b.sells <= Sum(orders, SELL) && b.matched <= |orders|
  {
    if orders != [] { ExactBounded(orders[..|orders| - 1]); }
  }

  /** A step whose sums fit is exact. */
  lemma StepExact(b: Book, o: Order)
    requires b.matched + 1 < WORD && (if o.side == BUY then b.buys else b.sells) + o.quantity < WORD
    ensures Process(b, o) == Exact(b, o)
  {
  }

  /** While all quantities submitted on a side, and the number of orders, fit into 64 bits, nothing wraps: the book
      is exactly the book on unbounded integers. */
  lemma {:induction false} TotalsExact(orders: seq<Order>)
    requires Sum(orders, BUY) < WORD && Sum(orders, SELL) < WORD && |orders| < WORD
    ensures Fold(EMPTY, orders) == FoldExact(orders)
    decreases |orders|
  {
    if orders != [] {
      var n := |orders| - 1;
      var front, o := orders[..n], orders[n];
      assert orders == front + [o];
      SumSnoc(front, o, BUY);
      SumSnoc(front, o, SELL);
      TotalsExact(front);
      FoldSnoc(EMPTY, front, o);
      ExactBounded(front);
      StepExact(FoldExact(front), o);
    }
  }

  /** And then each total stays at or below what the resting orders of its side brought in. */
  ghost predicate Covered(b: Book, rest: seq<Order>) {
    b.buys <= Sum(rest, BUY) && b.sells <= Sum(rest, SELL)
  }

  lemma {:induction false} CoveredStep(b: Book, rest: seq<Order>, o: Order, n: int)
    requires Covered(b, rest) && Reflects(b, rest, n) && Proper(rest) && ProperPrice(o.side, o.price)
    requires Sum(rest + [o], BUY) < WORD && Sum(rest + [o], SELL) < WORD
    ensures Covered(Process(b, o), if CrossesAny(o, rest) then rest else rest + [o])
  {
    BestDecides(b, rest, o);
    SumSnoc(rest, o, BUY);
    SumSnoc(rest, o, SELL);
  }

  /** The totals of a book that did not wrap, against its resting orders. */
  lemma {:induction false} TotalsBounded(orders: seq<Order>)
    requires Proper(orders) && Sum(orders, BUY) < WORD && Sum(orders, SELL) < WORD
    ensures Covered(Fold(EMPTY, orders), Resting(orders))
    ensures Sum(Resting(orders), BUY) <= Sum(orders, BUY) && Sum(Resting(orders), SELL) <= Sum(orders, SELL)
    decreases |orders|
  {
    if orders != [] {
      var n := |orders| - 1;
      var front, o := orders[..n], orders[n];
      assert orders == front + [o];
      TotalsBounded(front);
      BookIsResting(front);
      RestingProper(front);
      FoldSnoc(EMPTY, front, o);
      var rest := Resting(front);
      SumSnoc(rest, o, BUY);
      SumSnoc(rest, o, SELL);
      CoveredStep(Fold(EMPTY, front), rest, o, n);
    }
  }

  // ---------------------------------------------------------------- what the totals are

  /** What the crossing orders of the other side have taken out of the resting orders of `side`: each takes its own
      quantity, or all that is left if that is less. */
  ghost function Filled(orders: seq<Order>, side: Side): nat {
    if orders == [] then 0
    else
      var front, o := orders[..|orders| - 1], orders[|orders| - 1];
      var before := Filled(front, side);
      if o.side != side && CrossesAny(o, Resting(front)) then before + Taken(o, Sum(Resting(front), side) - before)
      else before
  }

  /** The smaller of the order's quantity and what is left. */
  function Taken(o: Order, left: int): (t: nat)
    ensures left >= 0 ==> t <= left && t <= o.quantity && (t == left || t == o.quantity)
  {
    if left < 0 then 0 else if o.quantity <= left then o.quantity else left
  }

  /** No more is taken than the resting orders brought in. */
  lemma {:induction false} FilledBounded(orders: seq<Order>, side: Side)
    ensures Filled(orders, side) <= Sum(Resting(orders), side)
  {
    if orders != [] {
      var front, o := orders[..|orders| - 1], orders[|orders| - 1];
      FilledBounded(front, side);
      SumSnoc(Resting(front), o, side);
    }
  }

  /** The totals show exactly what rests and has not been taken. */
  ghost predicate Shows(b: Book, orders: seq<Order>) {
    && b.buys == Sum(Resting(orders), BUY) - Filled(orders, BUY)
    && b.sells == Sum(Resting(orders), SELL) - Filled(orders, SELL)
  }

  lemma {:induction false} FilledSnoc(front: seq<Order>, o: Order, side: Side)
    ensures var before := Filled(front, side);
            Filled(front + [o], side) == before + if o.side != side && CrossesAny(o, Resting(front))
                                                  then Taken(o, Sum(Resting(front), side) - before) else 0
  {
    var all := front + [o];
    assert all[..|all| - 1] == front && all[|all| - 1] == o;
  }

  lemma {:induction false} RestingSum(front: seq<Order>, o: Order, side: Side)
    ensures Sum(Resting(front + [o]), side)
         == Sum(Resting(front), side) + if !CrossesAny(o, Resting(front)) && o.side == side then o.quantity else 0
  {
    var all := front + [o];
    assert all[..|all| - 1] == front && all[|all| - 1] == o;
    SumSnoc(Resting(front), o, side);
  }

  /** One order changes the totals: if it crosses it takes from the other side, and otherwise it adds to its own. */
  lemma {:induction false} OneOrder(b: Book, rest: seq<Order>, o: Order, n: int)
    requires Reflects(b, rest, n) && Proper(rest) && ProperPrice(o.side, o.price)
    requires (if o.side == BUY then b.buys else b.sells) + o.quantity < WORD
    ensures var x, r := CrossesAny(o, rest), Process(b, o);
            && r.buys == (if o.side == BUY then b.buys + (if x then 0 else o.quantity)
                          else b.buys - if x then Taken(o, b.buys) else 0)
            && r.sells == (if o.side == SELL then b.sells + (if x then 0 else o.quantity)
                           else b.sells - if x then Taken(o, b.sells) else 0)
  {
    BestDecides(b, rest, o);
  }

  lemma {:induction false} ShowsStep(b: Book, front: seq<Order>, o: Order)
    requires Reflects(b, Resting(front), |front|) && Proper(Resting(front)) && ProperPrice(o.side, o.price)
    requires Shows(b, front) && (if o.side == BUY then b.buys else b.sells) + o.quantity < WORD
    ensures Shows(Process(b, o), front + [o])
  {
    OneOrder(b, Resting(front), o, |front|);
    FilledSnoc(front, o, BUY);
    FilledSnoc(front, o, SELL);
    RestingSum(front, o, BUY);
    RestingSum(front, o, SELL);
  }

  /** Main theorem on quantities: while the quantities of each side fit into 64 bits, the total of a side is what its
      resting orders brought in, less what the crossing orders of the other side took. */
  lemma {:induction false} TotalsShow(orders: seq<Order>)
    requires Proper(orders) && Sum(orders, BUY) < WORD && Sum(orders, SELL) < WORD
    ensures Shows(Fold(EMPTY, orders), orders)
    decreases |orders|
  {
    if orders != [] {
      var n := |orders| - 1;
      var front, o := orders[..n], orders[n];
      assert orders == front + [o];
      SumSnoc(front, o, BUY);
      SumSnoc(front, o, SELL);
      TotalsShow(front);
      TotalsBounded(front);
      BookIsResting(front);
      RestingProper(front);
      FoldSnoc(EMPTY, front, o);
      ShowsStep(Fold(EMPTY, front), front, o);
    }
  }
}

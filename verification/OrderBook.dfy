/** The order book as the code is written (include/lockless/order_book.hpp), for calls that do not overlap:
    the atomics updated in place, the best prices by compare-exchange loops, the batch through an array of
    100. `spurious` is how often the weak compare-exchange fails although it could succeed. */
module OrderBooks {
  import opened Book
  import opened RingBuffers
  import opened Arith

  class OrderBook {
    const queue: RingBuffer<Order>
    var bestBid: nat
    var bestAsk: nat
    var totalBuys: nat
    var totalSells: nat
    var matchedOrders: nat

    function View(): Book
      reads this
    {
      Book(bestBid, bestAsk, totalBuys, totalSells, matchedOrders)
    }

    constructor (size: nat, ghost k: nat)
      requires size == Pow2(k) && size >= 2
      ensures View() == EMPTY && queue.Valid() && queue.contents == [] && queue.sequences.Length == size
      ensures fresh(queue) && fresh(queue.sequences) && fresh(queue.buffer)
    {
      queue := new RingBuffer<Order>(size, k);
      bestBid, bestAsk, totalBuys, totalSells, matchedOrders := 0, MAX, 0, 0, 0;
    }

    method SubmitOrder(o: Order) returns (ok: bool)
      requires queue.Valid()
      modifies queue, queue.sequences, queue.buffer
      ensures queue.Valid() && (ok <==> old(|queue.contents|) < queue.sequences.Length)
      ensures queue.contents == if ok then old(queue.contents) + [o] else old(queue.contents)
    {
      ok := queue.TryPush(o, 0);
    }

    /** The loop that raises the best bid to `price` unless it is already as high. */
    method RaiseBid(price: nat, spurious: nat)
      modifies this`bestBid
      ensures bestBid == if price > old(bestBid) then price else old(bestBid)
    {
      var current, failures := bestBid, spurious;
      while price > current
        invariant current == bestBid == old(bestBid)
        decreases failures
      {
        if bestBid == current && failures == 0 {
          bestBid := price;
          break;
        }
        failures := failures - 1;
        current := bestBid;
      }
    }

    method LowerAsk(price: nat, spurious: nat)
      modifies this`bestAsk
      ensures bestAsk == if price < old(bestAsk) then price else old(bestAsk)
    {
      var current, failures := bestAsk, spurious;
      while price < current
        invariant current == bestAsk == old(bestAsk)
        decreases failures
      {
        if bestAsk == current && failures == 0 {
          bestAsk := price;
          break;
        }
        failures := failures - 1;
        current := bestAsk;
      }
    }

    method ProcessSingleOrder(o: Order, spurious: nat)
      modifies this
      ensures View() == Process(old(View()), o)
    {
      if o.side == BUY {
        var ask := bestAsk;
        if ask != MAX && o.price >= ask {
          matchedOrders := (matchedOrders + 1) % WORD;
          totalSells := totalSells - Min(o.quantity, totalSells);
        } else {
          totalBuys := (totalBuys + o.quantity) % WORD;
          RaiseBid(o.price, spurious);
        }
      } else {
        var bid := bestBid;
        if bid != 0 && o.price <= bid {
          matchedOrders := (matchedOrders + 1) % WORD;
          totalBuys := totalBuys - Min(o.quantity, totalBuys);
        } else {
          totalSells := (totalSells + o.quantity) % WORD;
          LowerAsk(o.price, spurious);
        }
      }
    }

    /** Processes the batch in `orders[..count]`. */
    method ProcessBatch(orders: array<Order>, count: nat)
      requires count <= orders.Length
      modifies this
      ensures View() == Fold(old(View()), orders[..count])
    {
      for i := 0 to count
        invariant View() == Fold(old(View()), orders[..i])
      {
        FoldSnoc(old(View()), orders[..i], orders[i]);
        assert orders[..i + 1] == orders[..i] + [orders[i]];
        ProcessSingleOrder(orders[i], 0);
      }
    }

    /** Drains at most `batchSize` orders, and never more than 100, oldest first. */
    method ProcessOrders(batchSize: nat) returns (count: nat)
      requires queue.Valid()
      modifies this, queue, queue.sequences
      ensures queue.Valid()
      ensures count <= batchSize && count <= 100 && count <= old(|queue.contents|)
      ensures count == batchSize || count == 100 || count == old(|queue.contents|)
      ensures queue.contents == old(queue.contents)[count..]
      ensures View() == Fold(old(View()), old(queue.contents)[..count])
    {
      var orders := new Order[100](i => Order(0, BUY, 0, 0, 0));
      count := queue.TryPopBatch(orders, Min(batchSize, 100));
      assert old(queue.contents)[..count] == orders[..count];
      ProcessBatch(orders, count);
    }

    /** The best ask, 0 if there is none. */
    function GetBestAsk(): nat
      reads this
    {
      if bestAsk == MAX then 0 else bestAsk
    }

    /** The spread between the best prices: positive exactly when both exist and the book is not crossed. */
    function GetSpread(): (d: nat)
      reads this
      ensures d > 0 <==> bestBid != 0 && bestAsk != MAX && bestBid < bestAsk
      ensures d > 0 ==> bestBid + d == bestAsk
    {
      if bestBid == 0 || GetBestAsk() == 0 then 0
      else if GetBestAsk() > bestBid then GetBestAsk() - bestBid else 0
    }
  }
}

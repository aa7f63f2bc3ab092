/** The limit order book as the program keeps it: price maps of lists, id maps and tick fields changed in place.
    Every method is tied to the value-level book: View() before and after. */
module OrderBook {
  import opened Core
  import opened Matching
  import opened MatchLemmas
  import opened Book
  import opened Invariant
  import opened Index
  import Acceptance
  import Priority
  import Reporting
  import Tick

  datatype FillStatus = FillFilled | FillPartial | FillSkipped

  datatype Result = Done | Unsupported

  // ---- The inner loop in progress ----

  /** What the loop over one level has produced so far and what it still has to do make up the whole pass. */
  ghost predicate InProgress(price: Price, was: seq<Node>, user: UserId, want: Quantity,
                             kept: seq<Node>, todo: seq<Node>, fills: seq<Fill>, left: Quantity) {
    var r := MatchNodes(price, todo, user, left);
    && MatchNodes(price, was, user, want) == LevelMatched(kept + r.nodes, fills + r.fills)
    && left == want - Total(fills)
  }

  lemma OneOn(price: Price, was: seq<Node>, user: UserId, want: Quantity,
              kept: seq<Node>, todo: seq<Node>, fills: seq<Fill>, left: Quantity, left': Quantity)
    requires InProgress(price, was, user, want, kept, todo, fills, left) && todo != [] && left != 0.0
    requires left' == left - Total(MatchNode(price, todo[0], user, left).fills)
    ensures var h := MatchNode(price, todo[0], user, left);
            InProgress(price, was, user, want, kept + h.nodes, todo[1..], fills + h.fills, left')
  {
    hide MatchNode, Total;
    var h := MatchNode(price, todo[0], user, left);
    var r := MatchNodes(price, todo[1..], user, left');
    SeqAssoc(kept, h.nodes, r.nodes);
    SeqAssoc(fills, h.fills, r.fills);
    TotalAppend(fills, h.fills);
  }

  lemma NothingDone(price: Price, was: seq<Node>, user: UserId, want: Quantity)
    ensures InProgress(price, was, user, want, [], was, [], want)
  {
    var r := MatchNodes(price, was, user, want);
    assert [] + r.nodes == r.nodes && [] + r.fills == r.fills;
  }

  lemma Finished(price: Price, was: seq<Node>, user: UserId, want: Quantity,
                 kept: seq<Node>, todo: seq<Node>, fills: seq<Fill>, left: Quantity)
    requires InProgress(price, was, user, want, kept, todo, fills, left) && (todo == [] || left == 0.0)
    ensures MatchNodes(price, was, user, want) == LevelMatched(kept + todo, fills)
    ensures left == want - Total(fills)
  {
    assert fills + [] == fills;
  }

  // ---- The outer loop in progress ----

  ghost predicate Sweeping(levels: seq<Level>, o: OrderInfo, tick: Tick.TickState, past: seq<Level>,
                           todo: seq<Level>, fills: seq<Fill>, left: Quantity, tick': Tick.TickState) {
    var r := SweepLevels(todo, o.order.side, o.price, o.order.userId, left, tick');
    && SweepLevels(levels, o.order.side, o.price, o.order.userId, o.order.remainQty, tick)
       == Sweep(past + r.levels, fills + r.fills, r.blocked, |past| + r.entered)
    && left == o.order.remainQty - Total(fills)
  }

  lemma SweepStarts(levels: seq<Level>, o: OrderInfo, tick: Tick.TickState)
    ensures Sweeping(levels, o, tick, [], levels, [], o.order.remainQty, tick)
  {
    var r := SweepLevels(levels, o.order.side, o.price, o.order.userId, o.order.remainQty, tick);
    assert [] + r.levels == r.levels && [] + r.fills == r.fills;
  }

  /** The sweep ends in front of a level it does not enter. */
  lemma SweepEnds(levels: seq<Level>, o: OrderInfo, tick: Tick.TickState, past: seq<Level>,
                  todo: seq<Level>, fills: seq<Fill>, left: Quantity, tick': Tick.TickState)
    requires Sweeping(levels, o, tick, past, todo, fills, left, tick')
    requires todo == [] || !Reaches(o.order.side, todo[0].price, o.price) || !Tick.Allows(tick', o.order.side)
    ensures SweepLevels(levels, o.order.side, o.price, o.order.userId, o.order.remainQty, tick)
         == Sweep(past + todo, fills, todo != [] && Reaches(o.order.side, todo[0].price, o.price), |past|)
    ensures left == o.order.remainQty - Total(fills)
  {
    assert fills + [] == fills;
  }

  /** The sweep goes through one more level and on. */
  lemma SweepGoesOn(levels: seq<Level>, o: OrderInfo, tick: Tick.TickState, past: seq<Level>, todo: seq<Level>,
                    fills: seq<Fill>, left: Quantity, tick': Tick.TickState, m: LevelMatched, left': Quantity)
    requires Sweeping(levels, o, tick, past, todo, fills, left, tick') && left' == left - Total(m.fills)
    requires todo != [] && Reaches(o.order.side, todo[0].price, o.price) && Tick.Allows(tick', o.order.side)
    requires m == MatchNodes(todo[0].price, todo[0].nodes, o.order.userId, left) && left' != 0.0
    ensures Sweeping(levels, o, tick, past + [Level(todo[0].price, m.nodes)], todo[1..], fills + m.fills, left',
                     Tick.TradeAll(tick', Prices(m.fills)))
  {
    hide MatchNodes, Reaches, Tick.Allows, Tick.TradeAll, SweepLevels, Total;
    var level := Level(todo[0].price, m.nodes);
    SweepUnfolds(todo, o.order.side, o.price, o.order.userId, left, tick', left');
    TotalAppend(fills, m.fills);
    var r := SweepLevels(todo[1..], o.order.side, o.price, o.order.userId, left', Tick.TradeAll(tick', Prices(m.fills)));
    SeqAssoc(past, [level], r.levels);
    SeqAssoc(fills, m.fills, r.fills);
  }

  /** The sweep stops at a level because nothing is wanted any more. */
  lemma SweepStops(levels: seq<Level>, o: OrderInfo, tick: Tick.TickState, past: seq<Level>, todo: seq<Level>,
                   fills: seq<Fill>, left: Quantity, tick': Tick.TickState, m: LevelMatched)
    requires Sweeping(levels, o, tick, past, todo, fills, left, tick') && left - Total(m.fills) == 0.0
    requires todo != [] && Reaches(o.order.side, todo[0].price, o.price) && Tick.Allows(tick', o.order.side)
    requires m == MatchNodes(todo[0].price, todo[0].nodes, o.order.userId, left)
    ensures SweepLevels(levels, o.order.side, o.price, o.order.userId, o.order.remainQty, tick)
         == Sweep((past + [Level(todo[0].price, m.nodes)]) + todo[1..], fills + m.fills, false, |past| + 1)
  {
    hide MatchNodes, Reaches, Tick.Allows, Tick.TradeAll, SweepLevels, Total;
    SweepUnfolds(todo, o.order.side, o.price, o.order.userId, left, tick', 0.0);
    SeqAssoc(past, [Level(todo[0].price, m.nodes)], todo[1..]);
  }

  /** The effects of a series of fills on the records the loop keeps. */
  ghost predicate Recorded(fills: seq<Fill>, main: Event, main': Event, ids: map<OrderId, IdInfo>,
                           ids': map<OrderId, IdInfo>, tick: Tick.TickState, tick': Tick.TickState,
                           events: seq<Event>, events': seq<Event>) {
    && GoodFills(fills) && main' == Aggress(main, fills)
    && ids' == ids - Gone(fills)
    && tick' == Tick.TradeAll(tick, Prices(fills))
    && events' == events + Reports(fills)
  }

  lemma NothingRecorded(main: Event, ids: map<OrderId, IdInfo>, tick: Tick.TickState, events: seq<Event>)
    ensures Recorded([], main, main, ids, ids, tick, tick, events, events)
  {
    assert Prices([]) == [] && Reports([]) == [];
    assert ids - Gone([]) == ids;
    assert events + [] == events;
  }

  lemma RecordRead(fills: seq<Fill>, main: Event, main': Event, ids: map<OrderId, IdInfo>,
                   ids': map<OrderId, IdInfo>, tick: Tick.TickState, tick': Tick.TickState,
                   events: seq<Event>, events': seq<Event>)
    requires Recorded(fills, main, main', ids, ids', tick, tick', events, events')
    ensures main' == Aggress(main, fills) && ids' == ids - Gone(fills)
    ensures tick' == Tick.TradeAll(tick, Prices(fills)) && events' == events + Reports(fills)
    ensures Tick.Settled(tick) ==> Tick.Settled(tick')
  {
    if Tick.Settled(tick) { Tick.TradeAllSettled(tick, Prices(fills)); }
  }

  lemma LevelLive(levels: seq<Level>)
    requires levels != [] && AllLive(Flatten(levels))
    ensures forall n :: n in levels[0].nodes ==> n.order.Live()
    ensures AllLive(Flatten(levels[1..]))
  {
    forall n | n in levels[0].nodes ensures n.order.Live() {
      var i :| 0 <= i < |levels[0].nodes| && levels[0].nodes[i] == n;
      assert Tag(levels[0].price, levels[0].nodes)[i] == Resting(levels[0].price, n);
      assert Resting(levels[0].price, n) in Flatten(levels);
    }
  }

  /** Effects of two series in a row are those of the two together. */
  lemma RecordMore(fills: seq<Fill>, more: seq<Fill>, main: Event, main1: Event, main2: Event,
                   ids: map<OrderId, IdInfo>, ids1: map<OrderId, IdInfo>, ids2: map<OrderId, IdInfo>,
                   tick: Tick.TickState, tick1: Tick.TickState, tick2: Tick.TickState,
                   events: seq<Event>, events1: seq<Event>, events2: seq<Event>)
    requires Recorded(fills, main, main1, ids, ids1, tick, tick1, events, events1)
    requires Recorded(more, main1, main2, ids1, ids2, tick1, tick2, events1, events2)
    ensures Recorded(fills + more, main, main2, ids, ids2, tick, tick2, events, events2)
  {
    hide AggressOne, Report, Gone, Tick.TradeAll, Aggress;
    AggressAppend(main, fills, more);
    Index.GoneAppend(fills, more);
    assert Prices(fills + more) == Prices(fills) + Prices(more);
    Tick.TradeAllAppend(tick, Prices(fills), Prices(more));
    assert Reports(fills + more) == Reports(fills) + Reports(more);
    assert events + (Reports(fills) + Reports(more)) == events + Reports(fills) + Reports(more);
    assert ids - (Gone(fills) + Gone(more)) == ids - Gone(fills) - Gone(more);
  }

  lemma RecordOne(f: Fill, main: Event, ids: map<OrderId, IdInfo>, tick: Tick.TickState, events: seq<Event>)
    requires GoodFill(f)
    ensures Recorded([f], main, AggressOne(main, f), ids,
                     if f.qty == f.before.order.remainQty then ids - {f.before.order.orderId} else ids,
                     tick, Tick.Trade(tick, f.price), events, events + [Report(f)])
  {
    hide AggressOne, Report, Tick.Trade;
    assert [f][1..] == [] && [f.price][1..] == [];
    GoneOne(f);
    assert ids - {} == ids;
    assert Prices([f]) == [f.price] && Reports([f]) == [Report(f)];
    assert Aggress(AggressOne(main, f), []) == AggressOne(main, f);
    assert Tick.TradeAll(Tick.Trade(tick, f.price), []) == Tick.Trade(tick, f.price);
    assert GoodFills([f]);
  }

  lemma GoneOne(f: Fill)
    ensures Gone([f]) == if f.qty == f.before.order.remainQty then {f.before.order.orderId} else {}
  {
    assert f in [f];
  }

  /** Where the walk to a price ends: on its level, or in front of the first level behind it. */
  predicate Passed(levels: seq<Level>, descending: bool, price: Price, k: nat) {
    k <= |levels| && forall i :: 0 <= i < k ==> !Before(descending, price, levels[i].price) && levels[i].price != price
  }

  lemma {:induction false} RestAt(levels: seq<Level>, descending: bool, price: Price, node: Node, k: nat)
    requires Passed(levels, descending, price, k)
    ensures k == |levels| || Before(descending, price, levels[k].price) ==>
              Rest(levels, descending, price, node) == levels[..k] + [Level(price, [node])] + levels[k..]
    ensures k < |levels| && levels[k].price == price ==>
              Rest(levels, descending, price, node) == levels[k := Level(price, levels[k].nodes + [node])]
  {
    if k == 0 {
      assert levels[..0] == [] && levels[0..] == levels;
    } else {
      RestAt(levels[1..], descending, price, node, k - 1);
      assert [levels[0]] + levels[1..][..k - 1] == levels[..k] && levels[1..][k - 1..] == levels[k..];
      SeqAssoc([levels[0]], levels[1..][..k - 1], [Level(price, [node])]);
      SeqAssoc([levels[0]], levels[1..][..k - 1] + [Level(price, [node])], levels[k..]);
    }
  }

  lemma InsertUpdate<T>(s: seq<T>, k: nat, x: T, y: T)
    requires k <= |s|
    ensures var r := s[..k] + [x] + s[k..]; r[k] == x && r[k := y] == s[..k] + [y] + s[k..]
  {
  }

  lemma {:induction false} EraseNodeAt(nodes: seq<Node>, handle: nat, j: nat)
    requires j <= |nodes| && forall i :: 0 <= i < j ==> nodes[i].handle != handle
    ensures j == |nodes| ==> EraseNode(nodes, handle) == nodes
    ensures j < |nodes| && nodes[j].handle == handle ==> EraseNode(nodes, handle) == nodes[..j] + nodes[j + 1..]
  {
    if j > 0 {
      EraseNodeAt(nodes[1..], handle, j - 1);
      assert [nodes[0]] + nodes[1..] == nodes;
      if j < |nodes| { assert [nodes[0]] + (nodes[1..][..j - 1] + nodes[1..][j..]) == nodes[..j] + nodes[j + 1..]; }
    }
  }

  lemma {:induction false} EraseAt(levels: seq<Level>, info: IdInfo, k: nat)
    requires k <= |levels| && forall i :: 0 <= i < k ==> levels[i].price != info.price
    ensures k == |levels| ==> Erase(levels, info) == levels
    ensures k < |levels| && levels[k].price == info.price ==>
              Erase(levels, info) == levels[k := Level(info.price, EraseNode(levels[k].nodes, info.node))]
  {
    if k > 0 {
      EraseAt(levels[1..], info, k - 1);
      assert [levels[0]] + levels[1..] == levels;
    }
  }

  /** One price map with its id map. */
  class BookSide {
    const descending: bool
    var levels: seq<Level>
    var ids: map<OrderId, IdInfo>

    constructor (descending: bool)
      ensures this.descending == descending && View() == Half([], map[])
    {
      this.descending := descending;
      levels, ids := [], map[];
    }

    function View(): Half
      reads this
    {
      Half(levels, ids)
    }

    /** Appends the order to the list at its price and points the id map at the new last node. */
    method AddToBook(price: Price, handle: nat, order: Order)
      modifies this
      ensures View() == Half(Rest(old(levels), descending, price, Node(handle, order)),
                             old(ids)[order.orderId := IdInfo(handle, price)])
    {
      ghost var was := levels;
      var k := 0;
      while k < |levels| && levels[k].price != price && !Before(descending, price, levels[k].price)
        invariant Passed(levels, descending, price, k) && levels == was
      {
        k := k + 1;
      }
      RestAt(levels, descending, price, Node(handle, order), k);
      if k == |levels| || levels[k].price != price {
        levels := levels[..k] + [Level(price, [])] + levels[k..];
        InsertUpdate(was, k, Level(price, []), Level(price, [Node(handle, order)]));
        assert [] + [Node(handle, order)] == [Node(handle, order)];
      }
      levels := levels[k := Level(price, levels[k].nodes + [Node(handle, order)])];
      ids := ids[order.orderId := IdInfo(handle, price)];
    }

    method RemoveFromIdMap(id: OrderId) returns (found: bool)
      modifies this`ids
      ensures found == (id in old(ids)) && ids == old(ids) - {id}
    {
      if id !in ids { return false; }
      ids := ids - {id};
      found := true;
    }

    /** Erases the node an entry points at from the list at its price. */
    method CancelOrder(info: IdInfo)
      modifies this`levels
      ensures levels == Erase(old(levels), info)
    {
      ghost var was := levels;
      var k := 0;
      while k < |levels| && levels[k].price != info.price
        invariant k <= |levels| && levels == was
        invariant forall i :: 0 <= i < k ==> levels[i].price != info.price
      {
        k := k + 1;
      }
      EraseAt(levels, info, k);
      if k == |levels| { return; }
      var nodes, j := levels[k].nodes, 0;
      while j < |nodes| && nodes[j].handle != info.node
        invariant j <= |nodes| && forall i :: 0 <= i < j ==> nodes[i].handle != info.node
      {
        j := j + 1;
      }
      EraseNodeAt(nodes, info.node, j);
      if j < |nodes| { nodes := nodes[..j] + nodes[j + 1..]; }
      levels := levels[k := Level(info.price, nodes)];
    }
  }

  class OrderBook {
    const asks: BookSide
    const bids: BookSide
    var lastPrice: Price
    var lastPriceDiff: Price
    var tick: Tick.Direction
    var events: seq<Event>
    var next: nat

    constructor ()
      ensures Valid() && View() == EMPTY
      ensures fresh(asks) && fresh(bids)
    {
      asks := new BookSide(false);
      bids := new BookSide(true);
      lastPrice, lastPriceDiff, tick := 0.0, 0.0, Tick.ZeroPlusTick;
      events, next := [], 0;
    }

    function TickView(): Tick.TickState
      reads this
    {
      Tick.TickState(lastPrice, lastPriceDiff, tick)
    }

    function View(): State
      reads this, asks, bids
    {
      State(asks.View(), bids.View(), TickView(), events, next)
    }

    ghost predicate Apart()
      reads this, asks, bids
    {
      asks != bids && !asks.descending && bids.descending
    }

    ghost predicate Valid()
      reads this, asks, bids
    {
      Apart() && BookOk(View())
    }

    // ---- Tick ----

    method RecomputeTick()
      modifies this`tick
      ensures TickView() == Tick.Recompute(old(TickView()))
    {
      if lastPrice > lastPriceDiff {
        tick := Tick.PlusTick;
      } else if lastPrice < lastPriceDiff {
        tick := Tick.MinusTick;
      } else if tick.PlusTick? || tick.ZeroPlusTick? {
        tick := Tick.ZeroPlusTick;
      } else {
        tick := Tick.ZeroMinusTick;
      }
    }

    method ComputeTick(price: Price)
      modifies this`lastPrice, this`lastPriceDiff, this`tick
      ensures TickView() == Tick.Trade(old(TickView()), price)
    {
      lastPriceDiff := lastPrice;
      lastPrice := price;
      RecomputeTick();
    }

    method AllowTick(side: Side) returns (ok: bool)
      modifies this`tick
      ensures TickView() == Tick.Recompute(old(TickView())) && ok == Tick.Allows(TickView(), side)
    {
      RecomputeTick();
      match side {
        case BuyMinus => ok := tick.PlusTick? || tick.ZeroPlusTick?;
        case SellPlus => ok := tick.MinusTick? || tick.ZeroMinusTick?;
        case _ => ok := true;
      }
    }

    // ---- Matching ----

    /** Fills a resting order and the incoming one with each other, unless they are of one user. */
    method FillOrder(main: Event, price: Price, node: Node) returns (status: FillStatus, main': Event, node': Node)
      requires node.order.Live() && main.order.Live()
      modifies this`events
      ensures node.order.userId == main.order.userId ==>
                status == FillSkipped && main' == main && node' == node && events == old(events)
      ensures node.order.userId != main.order.userId ==>
                var f := Fill(node, price, Min(node.order.remainQty, main.order.remainQty));
                && GoodFill(f)
                && main' == AggressOne(main, f) && node' == After(f) && events == old(events) + [Report(f)]
                && status == (if f.qty == node.order.remainQty then FillFilled else FillPartial)
                && Reporting.Tells(Report(f), Resting(price, node), node.order.remainQty - f.qty)
    {
      main', node' := main, node;
      if node.order.userId == main.order.userId { return FillSkipped, main', node'; }
      var qty := Min(node.order.remainQty, main.order.remainQty);

      var cum := main.order.originalQty - main.order.remainQty;
      var avg := (cum * main.order.avgPrice + qty * price) / (cum + qty);
      main' := main.(lastPrice := price, lastQty := qty,
                     order := main.order.(avgPrice := avg, remainQty := main.order.remainQty - qty));

      var restCum := node.order.originalQty - node.order.remainQty;
      var restAvg := (restCum * node.order.avgPrice + qty * price) / (restCum + qty);
      var order := node.order.(avgPrice := restAvg, remainQty := node.order.remainQty - qty);
      if order.remainQty == 0.0 {
        node' := Node(node.handle, order.(status := Filled));
        events := events + [Event(Filled, price, qty, order)];
        status := FillFilled;
      } else {
        node' := Node(node.handle, order.(status := PartiallyFilled));
        events := events + [Event(PartiallyFilled, price, qty, order)];
        status := FillPartial;
      }
      Reporting.ReportTells(Fill(node, price, qty), node.order.remainQty - qty);
      hide Reporting.Tells;
    }

    /** The inner loop's body at one position: fill, erase an exhausted order, step back after an erasure
        (below zero at the front; the loop's increment brings the index back), update the tick. */
    method FillAt(book: BookSide, i: nat, idx: nat, main: Event) returns (main': Event, idx': int)
      requires book == asks || book == bids
      requires i < |book.levels| && idx < |book.levels[i].nodes|
      requires main.order.Live() && book.levels[i].nodes[idx].order.Live()
      modifies this`events, this`lastPrice, this`lastPriceDiff, this`tick, book
      ensures var was := old(book.levels[i]);
              var h := MatchNode(was.price, was.nodes[idx], main.order.userId, main.order.remainQty);
              && book.levels == old(book.levels)[i := Level(was.price, was.nodes[..idx] + h.nodes + was.nodes[idx + 1..])]
              && idx' == idx + |h.nodes| - 1
              && Recorded(h.fills, main, main', old(book.ids), book.ids, old(TickView()), TickView(), old(events), events)
              && main'.order.remainQty == main.order.remainQty - Total(h.fills)
              && 0.0 <= main'.order.remainQty <= main.order.remainQty
      ensures main'.order.originalQty == main.order.originalQty && main'.order.userId == main.order.userId
    {
      hide Recorded, AggressOne, Report, Tick.Trade, Tick.Recompute, After;
      idx' := idx;
      var nodes, price := book.levels[i].nodes, book.levels[i].price;
      ghost var h := MatchNode(price, nodes[idx], main.order.userId, main.order.remainQty);
      NothingRecorded(main, book.ids, TickView(), events);
      var status, main1, node := FillOrder(main, price, nodes[idx]);
      main' := main1;
      if status == FillSkipped {
        assert nodes == nodes[..idx] + h.nodes + nodes[idx + 1..];
        return;
      }
      ghost var f := h.fills[0];
      OneFill(main, f, h.fills);
      RecordOne(f, main, old(book.ids), old(TickView()), old(events));
      if status == FillFilled {
        book.levels := book.levels[i := Level(price, nodes[..idx] + nodes[idx + 1..])];
        assert nodes[..idx] + h.nodes == nodes[..idx];
        idx' := idx - 1;
        var _ := book.RemoveFromIdMap(nodes[idx].order.orderId);
      } else {
        book.levels := book.levels[i := Level(price, nodes[..idx] + [node] + nodes[idx + 1..])];
      }
      ComputeTick(price);
    }

    /** The inner loop: one pass over the list of one level, erasing exhausted orders on the way. */
    method FillLevel(book: BookSide, i: nat, main: Event) returns (main': Event, done: bool)
      requires book == asks || book == bids
      requires i < |book.levels| && main.order.Live()
      requires forall n :: n in book.levels[i].nodes ==> n.order.Live()
      modifies this`events, this`lastPrice, this`lastPriceDiff, this`tick, book
      ensures var was := old(book.levels[i]);
              var m := MatchNodes(was.price, was.nodes, main.order.userId, main.order.remainQty);
              && book.levels == old(book.levels)[i := Level(was.price, m.nodes)]
              && Recorded(m.fills, main, main', old(book.ids), book.ids, old(TickView()), TickView(), old(events), events)
              && main'.order.remainQty == main.order.remainQty - Total(m.fills)
      ensures main'.order.originalQty == main.order.originalQty && main'.order.userId == main.order.userId
      ensures done == (main'.order.remainQty == 0.0) && (!done ==> main'.order.Live())
    {
      hide InProgress, Recorded, MatchNodes, MatchNode, Total;
      var price := book.levels[i].price;
      ghost var was, user, want := book.levels[i].nodes, main.order.userId, main.order.remainQty;
      ghost var fills: seq<Fill> := [];
      main', done := main, false;
      NothingRecorded(main, book.ids, TickView(), events);
      NothingDone(price, was, user, want);
      assert was[..0] == [] && was[0..] == was;
      var idx: int := 0;
      while idx < |book.levels[i].nodes|
        invariant i < |book.levels| && 0 <= idx <= |book.levels[i].nodes|
        invariant book.levels == old(book.levels)[i := Level(price, book.levels[i].nodes)]
        invariant InProgress(price, was, user, want, book.levels[i].nodes[..idx], book.levels[i].nodes[idx..],
                             fills, main'.order.remainQty)
        invariant Recorded(fills, main, main', old(book.ids), book.ids, old(TickView()), TickView(), old(events), events)
        invariant main'.order.Live() && main'.order.userId == user
        invariant main'.order.originalQty == main.order.originalQty
        invariant forall n :: n in book.levels[i].nodes[idx..] ==> n.order.Live()
        decreases |book.levels[i].nodes| - idx
      {
        ghost var nodes, main0, ids0, tick0, events0 := book.levels[i].nodes, main', book.ids, TickView(), events;
        assert nodes[idx..][0] == nodes[idx] && nodes[idx..][1..] == nodes[idx + 1..];
        assert forall n :: n in nodes[idx + 1..] ==> n in nodes[idx..];
        ghost var at, h := idx, MatchNode(price, nodes[idx], user, main'.order.remainQty);
        main', idx := FillAt(book, i, idx, main');
        idx := idx + 1;
        OneOn(price, was, user, want, nodes[..at], nodes[at..], fills, main0.order.remainQty, main'.order.remainQty);
        RecordMore(fills, h.fills, main, main0, main', old(book.ids), ids0, book.ids, old(TickView()), tick0, TickView(),
                   old(events), events0, events);
        fills := fills + h.fills;
        assert book.levels[i].nodes == (nodes[..at] + h.nodes) + nodes[at + 1..];
        assert book.levels[i].nodes[..idx] == nodes[..at] + h.nodes && book.levels[i].nodes[idx..] == nodes[at + 1..];
        if main'.order.remainQty == 0.0 {
          Finished(price, was, user, want, book.levels[i].nodes[..idx], book.levels[i].nodes[idx..], fills, 0.0);
          done := true;
          return;
        }
      }
      assert book.levels[i].nodes == book.levels[i].nodes[..idx] + book.levels[i].nodes[idx..];
      Finished(price, was, user, want, book.levels[i].nodes[..idx], book.levels[i].nodes[idx..], fills, main'.order.remainQty);
    }

    // ---- The sweep ----

    /** The incoming order against one book, best price first. The events come first for the resting orders,
        then for the incoming one; a sweep the tick rule stops sends none for it. */
    method FillOnBook(book: BookSide, o: OrderInfo) returns (left: Quantity, avg: Price)
      requires book == asks || book == bids
      requires WellFormed(New(o)) && AllLive(Flatten(book.levels)) && Tick.Settled(TickView())
      modifies this`events, this`lastPrice, this`lastPriceDiff, this`tick, book
      ensures var s := SweepLevels(old(book.levels), o.order.side, o.price, o.order.userId, o.order.remainQty, old(TickView()));
              && book.View() == Half(s.levels, old(book.ids) - Gone(s.fills))
              && TickView() == Tick.TradeAll(old(TickView()), Prices(s.fills))
              && events == old(events) + Reports(s.fills) + TakerReport(o, s)
              && left == Taker(o, s.fills).order.remainQty
              && (left != 0.0 ==> avg == Taker(o, s.fills).order.avgPrice)
    {
      hide Sweeping, Recorded, MatchNodes, SweepLevels, Tick.TradeAll, Total, Aggress, Gone, Flatten, Reports;
      var main := Event(NewOrder, 0.0, 0.0, o.order);
      ghost var main0, levels, ids, tick0 := main, book.levels, book.ids, TickView();
      ghost var fills: seq<Fill> := [];
      SweepStarts(levels, o, tick0);
      NothingRecorded(main, book.ids, TickView(), events);
      assert levels[..0] == [] && levels[0..] == levels;
      var i := 0;
      while i < |book.levels|
        invariant i <= |book.levels|
        invariant Sweeping(levels, o, tick0, book.levels[..i], book.levels[i..], fills, main.order.remainQty, TickView())
        invariant Recorded(fills, main0, main, ids, book.ids, tick0, TickView(), old(events), events)
        invariant main.order.Live() && main.order.userId == o.order.userId
        invariant main.order.originalQty == o.order.originalQty
        invariant AllLive(Flatten(book.levels[i..])) && Tick.Settled(TickView())
        decreases |book.levels| - i
      {
        ghost var todo, past := book.levels[i..], book.levels[..i];
        assert todo[0] == book.levels[i] && todo[1..] == book.levels[i + 1..] && book.levels == past + todo;
        if !Reaches(o.order.side, book.levels[i].price, o.price) { break; }
        var ok := AllowTick(o.order.side);
        if !ok {
          SweepEnds(levels, o, tick0, past, todo, fills, main.order.remainQty, TickView());
          RecordRead(fills, main0, main, ids, book.ids, tick0, TickView(), old(events), events);
          return main.order.remainQty, main.order.avgPrice;
        }
        LevelLive(todo);
        ghost var m := MatchNodes(todo[0].price, todo[0].nodes, o.order.userId, main.order.remainQty);
        ghost var main1, ids1, tick1, events1 := main, book.ids, TickView(), events;
        var done;
        main, done := FillLevel(book, i, main);
        RecordRead(m.fills, main1, main, ids1, book.ids, tick1, TickView(), events1, events);
        RecordMore(fills, m.fills, main0, main1, main, ids, ids1, book.ids, tick0, tick1, TickView(), old(events), events1, events);
        if done {
          SweepStops(levels, o, tick0, past, todo, fills, main1.order.remainQty, tick1, m);
        } else {
          SweepGoesOn(levels, o, tick0, past, todo, fills, main1.order.remainQty, tick1, m, main.order.remainQty);
        }
        fills := fills + m.fills;
        assert book.levels == (past + [Level(todo[0].price, m.nodes)]) + todo[1..];
        if done {
          RecordRead(fills, main0, main, ids, book.ids, tick0, TickView(), old(events), events);
          events := events + [main.(execStatus := Filled)];
          return 0.0, 0.0;
        }
        assert book.levels[..i + 1] == past + [Level(todo[0].price, m.nodes)] && book.levels[i + 1..] == todo[1..];
        i := i + 1;
      }
      assert book.levels == book.levels[..i] + book.levels[i..];
      SweepEnds(levels, o, tick0, book.levels[..i], book.levels[i..], fills, main.order.remainQty, TickView());
      RecordRead(fills, main0, main, ids, book.ids, tick0, TickView(), old(events), events);
      if main.order.remainQty != o.order.originalQty {
        events := events + [main.(execStatus := PartiallyFilled)];
      }
      return main.order.remainQty, main.order.avgPrice;
    }

    // ---- Orders in and out ----

    /** Matches an order against the opposite side and rests what is left of it on its own. It does not look for the
        id; a new one keeps the book's invariant. */
    method Add(o: OrderInfo) returns (r: Result)
      requires Valid()
      requires o.order.side.Supported() ==> WellFormed(New(o))
      modifies this, asks, bids
      ensures Apart()
      ensures !old(Book.Has(View(), o.order.orderId)) ==> Valid()
      ensures o.order.side.Supported() ==> r == Done && View() == Book.Add(old(View()), o)
      ensures !o.order.side.Supported() ==> r == Unsupported && View() == old(View())
    {
      hide BookOk, SweepLevels, TakerReport, Taker, Gone, Rest, Tick.TradeAll, Reports;
      if !o.order.side.Supported() { return Unsupported; }
      ghost var before := View();
      Ready(before, o);
      var left, avg;
      if o.order.side.IsBid() {
        left, avg := FillOnBook(asks, o);
        if left != 0.0 {
          var rest := Order(o.order.userId, o.order.orderId, o.order.originalQty, left, avg, o.order.side, NewOrder);
          if left != o.order.originalQty { rest := rest.(status := PartiallyFilled); }
          bids.AddToBook(o.price, next, rest);
        }
      } else {
        left, avg := FillOnBook(bids, o);
        if left != 0.0 {
          var rest := Order(o.order.userId, o.order.orderId, o.order.originalQty, left, avg, o.order.side, NewOrder);
          if left != o.order.originalQty { rest := rest.(status := PartiallyFilled); }
          asks.AddToBook(o.price, next, rest);
        }
      }
      next := next + 1;
      if !Book.Has(before, o.order.orderId) { AddKeeps(before, o); }
      return Done;
    }

    /** Where an id's order is, on the side the caller names. */
    method GetOrderIdInfo(id: OrderId, side: Side) returns (info: IdInfo)
      requires side.Supported() && id in OwnHalf(View(), side).ids
      ensures info == OwnHalf(View(), side).ids[id]
    {
      info := if side.IsBid() then bids.ids[id] else asks.ids[id];
    }

    /** Takes a resting order out through the id map; the entry is copied before it is removed. */
    method Cancel(id: OrderId, side: Side) returns (r: Result)
      requires Valid()
      requires side.Supported() ==> id in OwnHalf(View(), side).ids
      modifies asks, bids
      ensures Valid()
      ensures side.Supported() ==>
                r == Done && id in OwnHalf(old(View()), side).ids && View() == Book.Cancel(old(View()), id, side)
      ensures !side.Supported() ==> r == Unsupported && View() == old(View())
    {
      hide BookOk, Erase;
      if !side.Supported() { return Unsupported; }
      CancelKeeps(View(), id, side);
      var info := GetOrderIdInfo(id, side);
      if side.IsAsk() {
        var _ := asks.RemoveFromIdMap(id);
        asks.CancelOrder(info);
      } else {
        var _ := bids.RemoveFromIdMap(id);
        bids.CancelOrder(info);
      }
      return Done;
    }

    // ---- Queries ----

    method Has(id: OrderId) returns (r: bool)
      ensures r == Book.Has(View(), id)
    {
      if id in asks.ids { return true; }
      if id in bids.ids { return true; }
      return false;
    }

    method HasOn(id: OrderId, side: Side) returns (r: bool)
      ensures r == Book.HasOn(View(), id, side)
    {
      if side.IsBid() {
        if id in bids.ids { return true; }
      } else if side.IsAsk() {
        if id in asks.ids { return true; }
      }
      return false;
    }

    /** The resting order with an id. The id map entry leads to it, and no other order has the id. */
    method GetOrder(id: OrderId) returns (order: Order)
      requires Valid() && Book.Has(View(), id)
      ensures Book.GetOrder(View(), id) == Some(order) && order.orderId == id
      ensures exists r :: r in Bids(View()) + Asks(View()) && r.node.order == order
    {
      hide Uncrossed, Deref, IndexOf, Index.Unique;
      if id in bids.ids {
        var r := Located(bids.View(), true, next, id);
        assert r in Bids(View()) + Asks(View());
        order := Deref(bids.levels, bids.ids[id]).value;
      } else {
        var r := Located(asks.View(), false, next, id);
        assert r in Bids(View()) + Asks(View());
        order := Deref(asks.levels, asks.ids[id]).value;
      }
    }

    // ---- What the market workers do while they hold the book ----

    /** The new order worker: tick rule first, then the duplicate check, then add. */
    method ProcessNewOrder(o: OrderInfo) returns (reply: NewOrderReply)
      requires Valid() && WellFormed(New(o))
      modifies this, asks, bids
      ensures Valid() && View() == Exec(old(View()), New(o))
      ensures reply == if !Tick.Allows(old(View()).tick, o.order.side) then TickRejected
                       else if Book.Has(old(View()), o.order.orderId) then Duplicate
                       else Acknowledged
      ensures reply == TickRejected <==> !Acceptance.Lets(old(tick), o.order.side)
      ensures reply == Duplicate <==>
                Acceptance.Lets(old(tick), o.order.side) && Acceptance.Rests(old(View()), o.order.orderId)
      ensures View() == if reply == Acknowledged then Book.Add(old(View()), o) else old(View())
    {
      hide BookOk, Book.Add;
      TickSettled(View());
      KnownIffResting(View(), o.order.orderId);
      var ok := AllowTick(o.order.side);
      if !ok { return TickRejected; }
      var known := Has(o.order.orderId);
      if known { return Duplicate; }
      var _ := Add(o);
      return Acknowledged;
    }

    /** The cancel worker: the order must rest on the side named and have exactly the quantity named left. */
    method ProcessCancel(id: OrderId, side: Side, qty: Quantity) returns (reply: CancelReply)
      requires Valid()
      modifies this, asks, bids
      ensures Valid() && View() == Exec(old(View()), CancelOf(id, side, qty))
      ensures Book.HasOn(old(View()), id, side) ==> Book.GetOrder(old(View()), id).Some?
      ensures match reply
              case UnknownOrder => !Book.HasOn(old(View()), id, side)
              case WrongQuantity =>
                Book.HasOn(old(View()), id, side) && Book.GetOrder(old(View()), id).value.remainQty != qty
              case Canceled(order) =>
                && Book.HasOn(old(View()), id, side)
                && Book.GetOrder(old(View()), id) == Some(order) && order.remainQty == qty
      ensures !reply.Canceled? ==> View() == old(View())
      ensures reply.Canceled? ==>
                id in OwnHalf(old(View()), side).ids && View() == Book.Cancel(old(View()), id, side)
    {
      hide BookOk, Book.Cancel, Book.GetOrder;
      var known := HasOn(id, side);
      if !known { return UnknownOrder; }
      var order := GetOrder(id);
      if order.remainQty != qty { return WrongQuantity; }
      var _ := Cancel(id, side);
      return Canceled(order);
    }
  }

  datatype NewOrderReply = TickRejected | Duplicate | Acknowledged

  datatype CancelReply = UnknownOrder | WrongQuantity | Canceled(order: Order)

  lemma TickSettled(b: State)
    requires BookOk(b)
    ensures Tick.Settled(b.tick)
  {
  }

  /** What FillOnBook needs, and what its results mean for the order that rests. */
  lemma Ready(b: State, o: OrderInfo)
    requires BookOk(b) && WellFormed(New(o))
    ensures AllLive(Bids(b)) && AllLive(Asks(b)) && Tick.Settled(b.tick)
    ensures GoodFills(SweepOf(b, o).fills)
    ensures var left := Taker(o, SweepOf(b, o).fills).order;
            Leftover(o, SweepOf(b, o).fills) ==
              Order(o.order.userId, o.order.orderId, o.order.originalQty, left.remainQty, left.avgPrice, o.order.side,
                    if left.remainQty != o.order.originalQty then PartiallyFilled else NewOrder)
  {
    hide Aggress, SweepLevels, Match, Uncrossed;
    var _, _ := SweepEffect(b, o);
    Priority.AggressAccount(Event(NewOrder, 0.0, 0.0, o.order), SweepOf(b, o).fills);
  }

  lemma OneFill(main: Event, f: Fill, fs: seq<Fill>)
    requires fs == [f]
    ensures Total(fs) == f.qty
    ensures var o := AggressOne(main, f).order;
            && o.remainQty == main.order.remainQty - f.qty && o.originalQty == main.order.originalQty
            && o.userId == main.order.userId
  {
    hide Blend;
    assert fs[1..] == [];
  }
}

/** Matching an incoming order against one side of the book.

    Two forms of the same pass are defined here. SweepLevels follows the program: price level by price level,
    emptied levels left behind, the tick rule consulted at every level. Match is the reference: one pass over
    the resting orders in price-then-arrival order. */
module Matching {
  import opened Core
  import Tick

  /** A list node; its handle stands for the iterator that points at it. */
  datatype Node = Node(handle: nat, order: Order)

  /** One entry of a price map: the price and its orders, oldest first. */
  datatype Level = Level(price: Price, nodes: seq<Node>)

  /** A resting order seen with the price it rests at. */
  datatype Resting = Resting(price: Price, node: Node)

  /** One trade: the resting order as it was before it, the price and the quantity. */
  datatype Fill = Fill(before: Node, price: Price, qty: Quantity)

  // ---- One fill ----

  /** The average price after filling qty more at the given price. The division is only ever met with
      cum + qty > 0 (OrderBook.FillOrder divides without a test); the other branch makes the function total. */
  function Blend(cum: Quantity, avg: Price, qty: Quantity, price: Price): Price {
    if cum + qty == 0.0 then avg else (cum * avg + qty * price) / (cum + qty)
  }

  /** Averages are exact: average times quantity is the money that changed hands. */
  lemma BlendExact(cum: Quantity, avg: Price, qty: Quantity, price: Price)
    requires cum + qty != 0.0
    ensures Blend(cum, avg, qty, price) * (cum + qty) == cum * avg + qty * price
  {
  }

  /** An order after a fill; the status is left to the caller. */
  function Filling(o: Order, qty: Quantity, price: Price): Order {
    o.(avgPrice := Blend(o.CumQty(), o.avgPrice, qty, price), remainQty := o.remainQty - qty)
  }

  /** The resting order after a fill. */
  function After(f: Fill): Node {
    var o := Filling(f.before.order, f.qty, f.price);
    Node(f.before.handle, o.(status := if o.remainQty == 0.0 then Filled else PartiallyFilled))
  }

  /** The event a fill pushes for the resting order. The order inside it still shows its earlier status. */
  function Report(f: Fill): Event {
    var o := Filling(f.before.order, f.qty, f.price);
    Event(if o.remainQty == 0.0 then Filled else PartiallyFilled, f.price, f.qty, o)
  }

  /** A fill of a live order by some of what remains of it. */
  predicate GoodFill(f: Fill) {
    f.before.order.Live() && 0.0 < f.qty <= f.before.order.remainQty
  }

  predicate GoodFills(fs: seq<Fill>) { forall f :: f in fs ==> GoodFill(f) }

  function Total(fs: seq<Fill>): Quantity { if fs == [] then 0.0 else fs[0].qty + Total(fs[1..]) }

  function Notional(fs: seq<Fill>): real { if fs == [] then 0.0 else fs[0].qty * fs[0].price + Notional(fs[1..]) }

  function Prices(fs: seq<Fill>): seq<Price> { seq(|fs|, i requires 0 <= i < |fs| => fs[i].price) }

  function Reports(fs: seq<Fill>): seq<Event> {
    seq(|fs|, i requires 0 <= i < |fs| => Report(fs[i]))
  }

  /** The ids that leave the index because their order was exhausted. */
  function Gone(fs: seq<Fill>): set<OrderId> {
    set f | f in fs && f.qty == f.before.order.remainQty :: f.before.order.orderId
  }

  /** The aggressor's event record after a series of fills. */
  function Aggress(main: Event, fs: seq<Fill>): Event
    decreases |fs|
  {
    if fs == [] then main
    else Aggress(AggressOne(main, fs[0]), fs[1..])
  }

  function AggressOne(main: Event, f: Fill): Event {
    main.(lastPrice := f.price, lastQty := f.qty, order := Filling(main.order, f.qty, f.price))
  }

  // ---- The reference: one pass in price-time order ----

  datatype Matched = Matched(kept: seq<Resting>, fills: seq<Fill>)

  function Join(a: Matched, b: Matched): Matched { Matched(a.kept + b.kept, a.fills + b.fills) }

  /** One pass over the resting orders until nothing is wanted any more. */
  function Match(flat: seq<Resting>, user: UserId, want: Quantity): Matched
    decreases |flat|
  {
    if flat == [] || want == 0.0 then Matched(flat, [])
    else
      var h := MatchOne(flat[0], user, want);
      Join(h, Match(flat[1..], user, want - Total(h.fills)))
  }

  /** The user's own orders are skipped, any other order is filled by what it has and what is wanted. */
  function MatchOne(r: Resting, user: UserId, want: Quantity): Matched {
    if r.node.order.userId == user then Matched([r], [])
    else
      var f := Fill(r.node, r.price, Min(r.node.order.remainQty, want));
      Matched(Remainder(f), [f])
  }

  /** What stays of a resting order after a fill: nothing if it was exhausted. */
  function Remainder(f: Fill): seq<Resting> {
    if f.qty == f.before.order.remainQty then [] else [Resting(f.price, After(f))]
  }

  // ---- The program's form: level by level ----

  datatype LevelMatched = LevelMatched(nodes: seq<Node>, fills: seq<Fill>)

  /** What the inner loop does to the orders of one level. */
  function MatchNodes(price: Price, nodes: seq<Node>, user: UserId, want: Quantity): LevelMatched
    decreases |nodes|
  {
    if nodes == [] || want == 0.0 then LevelMatched(nodes, [])
    else
      var h := MatchNode(price, nodes[0], user, want);
      var m := MatchNodes(price, nodes[1..], user, want - Total(h.fills));
      LevelMatched(h.nodes + m.nodes, h.fills + m.fills)
  }

  function MatchNode(price: Price, node: Node, user: UserId, want: Quantity): LevelMatched {
    if node.order.userId == user then LevelMatched([node], [])
    else
      var f := Fill(node, price, Min(node.order.remainQty, want));
      LevelMatched(if f.qty == f.before.order.remainQty then [] else [After(f)], [f])
  }

  /** Whether an order of this side trades at this price given its limit. */
  predicate Reaches(side: Side, price: Price, limit: Price) {
    if side.IsBid() then price <= limit else price >= limit
  }

  /** The outcome of the outer loop. entered counts the levels it traded in or passed through. */
  datatype Sweep = Sweep(levels: seq<Level>, fills: seq<Fill>, blocked: bool, entered: nat)

  function SweepLevels(levels: seq<Level>, side: Side, limit: Price, user: UserId, want: Quantity,
                       tick: Tick.TickState): Sweep
    decreases |levels|
  {
    if levels == [] || !Reaches(side, levels[0].price, limit) then Sweep(levels, [], false, 0)
    else if !Tick.Allows(tick, side) then Sweep(levels, [], true, 0)
    else
      var m := MatchNodes(levels[0].price, levels[0].nodes, user, want);
      var level := Level(levels[0].price, m.nodes);
      var left := want - Total(m.fills);
      if left == 0.0 then Sweep([level] + levels[1..], m.fills, false, 1)
      else
        var s := SweepLevels(levels[1..], side, limit, user, left, Tick.TradeAll(tick, Prices(m.fills)));
        Sweep([level] + s.levels, m.fills + s.fills, s.blocked, s.entered + 1)
  }

  // ---- From levels to the flat list ----

  function Tag(price: Price, nodes: seq<Node>): seq<Resting> {
    seq(|nodes|, i requires 0 <= i < |nodes| => Resting(price, nodes[i]))
  }

  /** The resting orders in the order of the price map and of arrival within a price; empty levels vanish. */
  function Flatten(levels: seq<Level>): seq<Resting> {
    if levels == [] then [] else Tag(levels[0].price, levels[0].nodes) + Flatten(levels[1..])
  }

  predicate AllLive(flat: seq<Resting>) { forall r :: r in flat ==> r.node.order.Live() }

  /** Closer to the front of the book: lower for asks, higher for bids. */
  predicate Before(descending: bool, a: Price, b: Price) { if descending then a > b else a < b }

  /** The keys of the price map, strictly ordered. */
  predicate SortedLevels(levels: seq<Level>, descending: bool) {
    forall i, j :: 0 <= i < j < |levels| ==> Before(descending, levels[i].price, levels[j].price)
  }

  /** The leading part of a flat list an order can reach. */
  function InReach(flat: seq<Resting>, side: Side, limit: Price): (r: seq<Resting>)
    ensures |r| <= |flat|
  {
    if flat == [] || !Reaches(side, flat[0].price, limit) then []
    else [flat[0]] + InReach(flat[1..], side, limit)
  }
}

/** The order book as a value: what add, cancel and the two market workers do to it. */
module Book {
  import opened Core
  import opened Matching
  import Tick

  /** An entry of the id map: where the order's node is and the price it rests at. */
  datatype IdInfo = IdInfo(node: nat, price: Price)

  /** One side: the price map with its lists, and the id map. */
  datatype Half = Half(levels: seq<Level>, ids: map<OrderId, IdInfo>)

  /** next is the handle the next node gets; every call of add uses one, so it also numbers the submissions. */
  datatype State = State(asks: Half, bids: Half, tick: Tick.TickState, events: seq<Event>, next: nat)

  const EMPTY := State(Half([], map[]), Half([], map[]), Tick.INITIAL, [], 0)

  // ---- Resting an order and taking it out ----

  /** The price map after appending a node to the list at a price, creating the level if needed. */
  function Rest(levels: seq<Level>, descending: bool, price: Price, node: Node): seq<Level> {
    if levels == [] || Before(descending, price, levels[0].price) then [Level(price, [node])] + levels
    else if levels[0].price == price then [Level(price, levels[0].nodes + [node])] + levels[1..]
    else [levels[0]] + Rest(levels[1..], descending, price, node)
  }

  /** The list without the node an iterator points at. */
  function EraseNode(nodes: seq<Node>, handle: nat): seq<Node> {
    if nodes == [] then []
    else if nodes[0].handle == handle then nodes[1..]
    else [nodes[0]] + EraseNode(nodes[1..], handle)
  }

  /** The price map after erasing a node from the list at a price; the level stays even if it is empty now. */
  function Erase(levels: seq<Level>, info: IdInfo): seq<Level> {
    if levels == [] then []
    else if levels[0].price == info.price then
      [Level(info.price, EraseNode(levels[0].nodes, info.node))] + levels[1..]
    else [levels[0]] + Erase(levels[1..], info)
  }

  // ---- add ----

  function Opposite(b: State, side: Side): Half { if side.IsBid() then b.asks else b.bids }

  function OwnHalf(b: State, side: Side): Half { if side.IsBid() then b.bids else b.asks }

  function WithHalves(b: State, side: Side, opposite: Half, own: Half): State {
    if side.IsBid() then b.(asks := opposite, bids := own) else b.(asks := own, bids := opposite)
  }

  /** The sweep an incoming order makes on the opposite side. */
  function SweepOf(b: State, o: OrderInfo): Sweep {
    SweepLevels(Opposite(b, o.order.side).levels, o.order.side, o.price, o.order.userId, o.order.remainQty, b.tick)
  }

  /** The record of the aggressor once the sweep is over. */
  function Taker(o: OrderInfo, fills: seq<Fill>): Event {
    Aggress(Event(NewOrder, 0.0, 0.0, o.order), fills)
  }

  /** The aggressor's own event: none when the tick rule stopped it or when nothing was traded. */
  function TakerReport(o: OrderInfo, s: Sweep): seq<Event> {
    var e := Taker(o, s.fills);
    if e.order.remainQty == 0.0 then [e.(execStatus := Filled)]
    else if s.blocked || e.order.remainQty == o.order.originalQty then []
    else [e.(execStatus := PartiallyFilled)]
  }

  /** What rests of the aggressor. */
  function Leftover(o: OrderInfo, fills: seq<Fill>): Order {
    var left := Taker(o, fills).order;
    left.(status := if left.remainQty != o.order.originalQty then PartiallyFilled else NewOrder)
  }

  function AddOwn(own: Half, o: OrderInfo, fills: seq<Fill>, handle: nat): Half {
    var left := Leftover(o, fills);
    if left.remainQty == 0.0 then own
    else Half(Rest(own.levels, o.order.side.IsBid(), o.price, Node(handle, left)),
              own.ids[o.order.orderId := IdInfo(handle, o.price)])
  }

  function Add(b: State, o: OrderInfo): State {
    var side := o.order.side;
    var s := SweepOf(b, o);
    var opposite := Half(s.levels, Opposite(b, side).ids - Gone(s.fills));
    WithHalves(b, side, opposite, AddOwn(OwnHalf(b, side), o, s.fills, b.next))
      .(tick := Tick.TradeAll(b.tick, Prices(s.fills)),
        events := b.events + Reports(s.fills) + TakerReport(o, s),
        next := b.next + 1)
  }

  // ---- cancel ----

  function Cancel(b: State, id: OrderId, side: Side): State
    requires id in OwnHalf(b, side).ids
  {
    var own := OwnHalf(b, side);
    WithHalves(b, side, Opposite(b, side), Half(Erase(own.levels, own.ids[id]), own.ids - {id}))
  }

  // ---- Queries ----

  predicate Has(b: State, id: OrderId) { id in b.asks.ids || id in b.bids.ids }

  predicate HasOn(b: State, id: OrderId, side: Side) { side.Supported() && id in OwnHalf(b, side).ids }

  /** The order with a handle at a price, read through an id map entry. */
  function Deref(levels: seq<Level>, info: IdInfo): Option<Order> {
    if levels == [] then None
    else if levels[0].price == info.price then FindNode(levels[0].nodes, info.node)
    else Deref(levels[1..], info)
  }

  function FindNode(nodes: seq<Node>, handle: nat): Option<Order> {
    if nodes == [] then None
    else if nodes[0].handle == handle then Some(nodes[0].order)
    else FindNode(nodes[1..], handle)
  }

  /** The bid map is asked first. */
  function GetOrder(b: State, id: OrderId): Option<Order> {
    if id in b.bids.ids then Deref(b.bids.levels, b.bids.ids[id])
    else if id in b.asks.ids then Deref(b.asks.levels, b.asks.ids[id])
    else None
  }

  // ---- The two market workers, each holding the book alone ----

  datatype Request = New(info: OrderInfo) | CancelOf(id: OrderId, side: Side, qty: Quantity)

  /** What the worker decides before it touches the book. */
  predicate Accepts(b: State, r: Request) {
    match r
    case New(o) => Tick.Allows(b.tick, o.order.side) && !Has(b, o.order.orderId)
    case CancelOf(id, side, qty) =>
      HasOn(b, id, side) && GetOrder(b, id).Some? && GetOrder(b, id).value.remainQty == qty
  }

  /** What the worker does to the book once it has accepted. */
  function Apply(b: State, r: Request): State
    requires r.CancelOf? ==> r.id in OwnHalf(b, r.side).ids
  {
    match r
    case New(o) => Add(b, o)
    case CancelOf(id, side, _) => Cancel(b, id, side)
  }

  function Exec(b: State, r: Request): State {
    if Accepts(b, r) then Apply(b, r) else b
  }

  /** The requests the input stages let through: supported side, and a new order asks for all of a positive
      quantity (the program does not check the sign). */
  predicate WellFormed(r: Request) {
    r.New? ==>
      var o := r.info.order;
      o.side.Supported() && 0.0 < o.originalQty && o.remainQty == o.originalQty
  }

  /** The sequential fold of requests. */
  function Run(b: State, rs: seq<Request>): State {
    if rs == [] then b else Exec(Run(b, rs[..|rs| - 1]), rs[|rs| - 1])
  }
}

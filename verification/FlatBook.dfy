/** The reference engine: two lists of resting orders in price-time order, no levels and no id maps.
    For Buy and Sell orders the order book computes exactly the same. */
module FlatBook {
  import opened Core
  import opened Matching
  import opened MatchLemmas
  import opened Book
  import opened Index
  import opened Invariant
  import Priority
  import Tick

  datatype FlatState = FlatState(
    asks: seq<Resting>, bids: seq<Resting>, tick: Tick.TickState, events: seq<Event>, next: nat)

  /** What is left of a book when levels and maps are forgotten. */
  function Flat(b: State): FlatState { FlatState(Asks(b), Bids(b), b.tick, b.events, b.next) }

  /** The resting orders of one side. */
  function OneSide(f: FlatState, bid: bool): seq<Resting> { if bid then f.bids else f.asks }

  /** One pass over what the limit reaches, the rest untouched, the remainder inserted by price and time. */
  function FlatAdd(f: FlatState, o: OrderInfo): FlatState {
    var side := o.order.side;
    var opposite := OneSide(f, !side.IsBid());
    var reach := InReach(opposite, side, o.price);
    var m := Match(reach, o.order.userId, o.order.remainQty);
    var opposite' := m.kept + opposite[|reach|..];
    var left := Leftover(o, m.fills);
    var own := OneSide(f, side.IsBid());
    var own' := if left.remainQty == 0.0 then own
                else InsertFlat(own, side.IsBid(), Resting(o.price, Node(f.next, left)));
    FlatState(
      if side.IsBid() then opposite' else own',
      if side.IsBid() then own' else opposite',
      Tick.TradeAll(f.tick, Prices(m.fills)),
      f.events + Reports(m.fills) + TakerReport(o, Sweep([], m.fills, false, 0)),
      f.next + 1)
  }

  function FindId(flat: seq<Resting>, id: OrderId): Option<Order> {
    if flat == [] then None
    else if flat[0].node.order.orderId == id then Some(flat[0].node.order)
    else FindId(flat[1..], id)
  }

  function RemoveId(flat: seq<Resting>, id: OrderId): seq<Resting> {
    if flat == [] then []
    else if flat[0].node.order.orderId == id then flat[1..]
    else [flat[0]] + RemoveId(flat[1..], id)
  }

  /** The reference engine's reaction to one request. */
  function FlatExec(f: FlatState, r: Request): FlatState {
    match r
    case New(o) =>
      if Tick.Allows(f.tick, o.order.side) && FindId(f.asks, o.order.orderId).None?
         && FindId(f.bids, o.order.orderId).None? then FlatAdd(f, o) else f
    case CancelOf(id, side, qty) =>
      if !side.Supported() then f
      else
        match FindId(OneSide(f, side.IsBid()), id)
        case None => f
        case Some(order) =>
          if order.remainQty != qty then f
          else if side.IsBid() then f.(bids := RemoveId(f.bids, id))
          else f.(asks := RemoveId(f.asks, id))
  }

  function FlatRun(f: FlatState, rs: seq<Request>): FlatState {
    if rs == [] then f else FlatExec(FlatRun(f, rs[..|rs| - 1]), rs[|rs| - 1])
  }

  predicate PlainRequest(r: Request) { r.New? ==> r.info.order.side.Plain() }

  // ---- Orders by id ----

  lemma {:induction false} IdIsHandle(flat: seq<Resting>, r: Resting)
    requires Unique(flat) && r in flat
    ensures FindId(flat, r.node.order.orderId) == Some(r.node.order)
    ensures RemoveId(flat, r.node.order.orderId) == RemoveFlat(flat, r.node.handle)
  {
    IndexLocates(flat[1..]);
    if flat[0] != r { IdIsHandle(flat[1..], r); }
  }

  lemma {:induction false} FindIdIds(flat: seq<Resting>, id: OrderId)
    ensures FindId(flat, id).Some? <==> id in Ids(flat)
  {
    if flat != [] { FindIdIds(flat[1..], id); }
  }

  // ---- add ----

  lemma {:induction false} ReachSplits(front: seq<Resting>, back: seq<Resting>, side: Side, limit: Price)
    requires forall r :: r in front ==> Reaches(side, r.price, limit)
    ensures InReach(front + back, side, limit) == front + InReach(back, side, limit)
  {
    if front == [] {
      assert front + back == back;
    } else {
      assert front[0] in front;
      assert (front + back)[1..] == front[1..] + back;
      ReachSplits(front[1..], back, side, limit);
    }
  }

  lemma {:induction false} ReachPrefix(flat: seq<Resting>, side: Side, limit: Price)
    ensures InReach(flat, side, limit) + flat[|InReach(flat, side, limit)|..] == flat
  {
    if flat != [] { ReachPrefix(flat[1..], side, limit); }
  }

  lemma ReachNothing(flat: seq<Resting>, side: Side, limit: Price)
    requires forall r :: r in flat ==> !Reaches(side, r.price, limit)
    ensures InReach(flat, side, limit) == []
  {
    if flat != [] { assert flat[0] in flat; }
  }

  /** Stopping early because nothing is wanted any more is the pass over everything within reach. */
  lemma FrontIsReach(front: seq<Resting>, back: seq<Resting>, side: Side, limit: Price, user: UserId, want: Quantity)
    requires forall r :: r in front ==> Reaches(side, r.price, limit)
    requires Total(Match(front, user, want).fills) != want ==> forall r :: r in back ==> !Reaches(side, r.price, limit)
    ensures var reach := InReach(front + back, side, limit);
            && Match(reach, user, want).fills == Match(front, user, want).fills
            && Match(reach, user, want).kept + (front + back)[|reach|..] == Match(front, user, want).kept + back
  {
    hide Match, Reaches, Total, InReach;
    var reach := InReach(front + back, side, limit);
    var more := InReach(back, side, limit);
    var m := Match(front, user, want);
    ReachSplits(front, back, side, limit);
    ReachPrefix(back, side, limit);
    assert (front + back)[|reach|..] == back[|more|..];
    if Total(m.fills) != want {
      ReachNothing(back, side, limit);
      assert reach == front && back[|more|..] == back;
    } else {
      MatchAppend(front, more, user, want, 0.0);
      MatchNothing(more, user);
      SeqAssoc(m.kept, more, back[|more|..]);
    }
  }

  lemma AddRefines(b: State, o: OrderInfo)
    requires BookOk(b) && WellFormed(New(o)) && o.order.side.Plain()
    ensures Flat(Add(b, o)) == FlatAdd(Flat(b), o)
  {
    hide Match, InReach, InsertFlat, BookOk, SweepOf, Leftover, Sound, Reports, Prices, Taker, Total, Tick.TradeAll;
    var side := o.order.side;
    var front, back := AddEffect(b, o);
    FrontIsReach(front, back, side, o.price, o.order.userId, o.order.remainQty);
    PlainNeverBlocked(b, o);
  }

  lemma PlainNeverBlocked(b: State, o: OrderInfo)
    requires WellFormed(New(o)) && o.order.side.Plain()
    ensures !SweepOf(b, o).blocked
  {
    SweepIsMatch(Opposite(b, o.order.side).levels, o.order.side, o.price, o.order.userId, o.order.remainQty, b.tick);
  }

  // ---- every request, every run ----

  lemma AcceptsRefines(b: State, r: Request)
    requires BookOk(b) && r.CancelOf? && r.side.Supported()
    ensures var f := FindId(OneSide(Flat(b), r.side.IsBid()), r.id);
            && (Accepts(b, r) <==> f.Some? && f.value.remainQty == r.qty)
            && (Accepts(b, r) ==> Flat(Exec(b, r)) == FlatExec(Flat(b), r))
  {
    hide Uncrossed, Deref, Erase, RemoveFlat, FindId, RemoveId, IndexOf, Unique, Flatten;
    var h := OwnHalf(b, r.side);
    var flat := FlatOwn(b, r.side);
    FindIdIds(flat, r.id);
    if r.id in h.ids {
      var x := Located(h, r.side.IsBid(), b.next, r.id);
      IdIsHandle(flat, x);
      assert x in Bids(b) + Asks(b);
      RestingFound(b, x);
    }
  }

  /** One request: the order book and the reference engine move together. */
  lemma ExecRefines(b: State, r: Request)
    requires BookOk(b) && WellFormed(r) && PlainRequest(r)
    ensures Flat(Exec(b, r)) == FlatExec(Flat(b), r)
  {
    hide Uncrossed, Add, FlatAdd, FindId, Flatten, Unique, RemoveId, Cancel, GetOrder;
    match r
    case New(o) =>
      FindIdIds(Asks(b), o.order.orderId);
      FindIdIds(Bids(b), o.order.orderId);
      AddRefines(b, o);
    case CancelOf(id, side, qty) =>
      if side.Supported() { AcceptsRefines(b, r); }
  }

  /** The refinement theorem: over every run of Buy, Sell and cancel requests, the book with its levels, emptied
      levels and id maps shows the same resting orders, tick and event sequence as the reference engine. */
  lemma {:induction false} RunRefines(rs: seq<Request>)
    requires forall r :: r in rs ==> WellFormed(r) && PlainRequest(r)
    ensures Flat(Run(EMPTY, rs)) == FlatRun(Flat(EMPTY), rs)
  {
    hide Exec, FlatExec, BookOk;
    if rs != [] {
      var before := rs[..|rs| - 1];
      RunRefines(before);
      RunKeeps(before);
      ExecRefines(Run(EMPTY, before), rs[|rs| - 1]);
    }
  }
}

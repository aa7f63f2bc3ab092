/** What every request keeps: both id maps agree with their price maps, every order rests live on its own
    side, and the book is crossed only where the program lets it be. */
module Invariant {
  import opened Core
  import opened Matching
  import opened MatchLemmas
  import opened Priority
  import opened Book
  import opened Index
  import Tick

  function Bids(b: State): seq<Resting> { Flatten(b.bids.levels) }

  function Asks(b: State): seq<Resting> { Flatten(b.asks.levels) }

  predicate OnSide(flat: seq<Resting>, bid: bool) {
    forall r :: r in flat ==> if bid then r.node.order.side.IsBid() else r.node.order.side.IsAsk()
  }

  predicate FlatOk(flat: seq<Resting>, bid: bool, next: nat) {
    && Unique(flat) && AllLive(flat) && OnSide(flat, bid)
    && forall h :: h in Handles(flat) ==> h < next
  }

  predicate HalfOk(h: Half, bid: bool, next: nat) {
    && SortedLevels(h.levels, bid)
    && FlatOk(Flatten(h.levels), bid, next)
    && h.ids == IndexOf(Flatten(h.levels))
  }

  /** A bid at or above an ask is only left standing between two orders of one user, or when one of the two
      is of a side the tick rule can stop. */
  predicate MayCross(bid: Resting, ask: Resting) {
    || bid.price < ask.price
    || bid.node.order.userId == ask.node.order.userId
    || bid.node.order.side == BuyMinus
    || ask.node.order.side == SellPlus
  }

  predicate Uncrossed(bids: seq<Resting>, asks: seq<Resting>) {
    forall x, y :: x in bids && y in asks ==> MayCross(x, y)
  }

  predicate BookOk(b: State) {
    && HalfOk(b.bids, true, b.next) && HalfOk(b.asks, false, b.next)
    && b.bids.ids.Keys !! b.asks.ids.Keys
    && Handles(Bids(b)) !! Handles(Asks(b))
    && Tick.Settled(b.tick)
    && Uncrossed(Bids(b), Asks(b))
  }

  // ---- What an accepted order does, in terms of the flat lists ----

  function FlatOpposite(b: State, side: Side): seq<Resting> { Flatten(Opposite(b, side).levels) }

  function FlatOwn(b: State, side: Side): seq<Resting> { Flatten(OwnHalf(b, side).levels) }

  /** The opposite side splits into what the sweep entered, which went through one price-time pass, and what
      it did not, which is untouched. */
  ghost predicate EnteredAs(b: State, o: OrderInfo, front: seq<Resting>, back: seq<Resting>) {
    var side := o.order.side;
    var m := Match(front, o.order.userId, o.order.remainQty);
    && FlatOpposite(b, side) == front + back
    && (forall r :: r in front ==> Reaches(side, r.price, o.price))
    && (side.Plain() && Total(m.fills) != o.order.remainQty ==> forall r :: r in back ==> !Reaches(side, r.price, o.price))
    && SweepOf(b, o).fills == m.fills
    && Flatten(SweepOf(b, o).levels) == m.kept + back
    && Sound(front, o.order.userId, o.order.remainQty, m)
  }

  /** The same seen in the book after add, where the remainder was inserted by price and time. */
  ghost predicate AddedAs(b: State, o: OrderInfo, front: seq<Resting>, back: seq<Resting>) {
    var side := o.order.side;
    var m := Match(front, o.order.userId, o.order.remainQty);
    var left := Leftover(o, m.fills);
    && EnteredAs(b, o, front, back)
    && FlatOpposite(Add(b, o), side) == m.kept + back
    && left.remainQty == o.order.remainQty - Total(m.fills)
    && FlatOwn(Add(b, o), side) ==
         if left.remainQty == 0.0 then FlatOwn(b, side)
         else InsertFlat(FlatOwn(b, side), side.IsBid(), Resting(o.price, Node(b.next, left)))
  }

  lemma BeyondReach(levels: seq<Level>, side: Side, limit: Price, n: nat)
    requires SortedLevels(levels, !side.IsBid()) && n < |levels|
    requires !Reaches(side, levels[n].price, limit)
    ensures forall r :: r in Flatten(levels[n..]) ==> !Reaches(side, r.price, limit)
  {
    FlattenPrices(levels[n..]);
  }

  lemma AddHalves(b: State, o: OrderInfo)
    ensures var side, s := o.order.side, SweepOf(b, o);
            && Opposite(Add(b, o), side) == Half(s.levels, Opposite(b, side).ids - Gone(s.fills))
            && OwnHalf(Add(b, o), side) == AddOwn(OwnHalf(b, side), o, s.fills, b.next)
  {
    hide SweepLevels, Aggress, Rest, Gone;
  }

  lemma RestEffect(b: State, o: OrderInfo, fills: seq<Fill>)
    requires SortedLevels(OwnHalf(b, o.order.side).levels, o.order.side.IsBid())
    ensures var side, left := o.order.side, Leftover(o, fills);
            Flatten(AddOwn(OwnHalf(b, side), o, fills, b.next).levels) ==
              if left.remainQty == 0.0 then FlatOwn(b, side)
              else InsertFlat(FlatOwn(b, side), side.IsBid(), Resting(o.price, Node(b.next, left)))
  {
    hide Aggress, Rest, InsertFlat;
    RestInserts(OwnHalf(b, o.order.side).levels, o.order.side.IsBid(), o.price, Node(b.next, Leftover(o, fills)));
  }

  /** The side an order is matched against. */
  lemma OppositeOk(b: State, side: Side)
    requires BookOk(b)
    ensures HalfOk(Opposite(b, side), !side.IsBid(), b.next)
    ensures SortedLevels(Opposite(b, side).levels, !side.IsBid())
    ensures FlatOk(FlatOpposite(b, side), !side.IsBid(), b.next)
    ensures AllLive(FlatOpposite(b, side))
  {
    hide Uncrossed, Unique, IndexOf, SortedLevels, AllLive, OnSide;
  }

  lemma SweepEffect(b: State, o: OrderInfo) returns (front: seq<Resting>, back: seq<Resting>)
    requires BookOk(b) && WellFormed(New(o))
    ensures EnteredAs(b, o, front, back)
  {
    hide Match, SweepLevels, BookOk, Sound, Total, HalfOk, FlatOk;
    var side := o.order.side;
    var levels := Opposite(b, side).levels;
    OppositeOk(b, side);
    SweepIsMatch(levels, side, o.price, o.order.userId, o.order.remainQty, b.tick);
    var s := SweepOf(b, o);
    front, back := Flatten(levels[..s.entered]), Flatten(levels[s.entered..]);
    assert levels == levels[..s.entered] + levels[s.entered..];
    FlattenAppend(levels[..s.entered], levels[s.entered..]);
    FlattenPrices(levels[..s.entered]);
    if s.entered < |levels| && !Reaches(side, levels[s.entered].price, o.price) {
      BeyondReach(levels, side, o.price, s.entered);
    }
    assert AllLive(front) by {
      assert forall r :: r in front ==> r in front + back;
    }
    MatchSound(front, o.order.userId, o.order.remainQty);
  }

  lemma AddEffect(b: State, o: OrderInfo) returns (front: seq<Resting>, back: seq<Resting>)
    requires BookOk(b) && WellFormed(New(o))
    ensures AddedAs(b, o, front, back)
  {
    hide Match, SweepOf, Aggress, AddOwn, Add, InsertFlat, Unique;
    front, back := SweepEffect(b, o);
    var fills := SweepOf(b, o).fills;
    AggressAccount(Event(NewOrder, 0.0, 0.0, o.order), fills);
    AddHalves(b, o);
    RestEffect(b, o, fills);
  }

  // ---- add keeps the invariant ----

  /** The same order in another state of completion. */
  predicate SameOrder(x: Resting, y: Resting) {
    && x.price == y.price && x.node.handle == y.node.handle
    && x.node.order.orderId == y.node.order.orderId
    && x.node.order.userId == y.node.order.userId
    && x.node.order.side == y.node.order.side
    && x.node.order.originalQty == y.node.order.originalQty
  }

  lemma KeptSame(front: seq<Resting>, user: UserId, want: Quantity, r: Resting) returns (was: Resting)
    requires AllLive(front) && want >= 0.0 && r in Match(front, user, want).kept
    ensures was in front && SameOrder(was, r)
  {
    hide Match, Own, Whole, Blend;
    var n, part := MatchCuts(front, user, want);
    var k := KeptOrigin(front, user, Match(front, user, want), n, part, r);
    was := front[k];
  }

  lemma OppositeKept(h: Half, bid: bool, next: nat, front: seq<Resting>, back: seq<Resting>, user: UserId,
                     want: Quantity, levels: seq<Level>)
    requires HalfOk(h, bid, next) && Flatten(h.levels) == front + back && want >= 0.0
    requires |levels| == |h.levels| && forall i :: 0 <= i < |levels| ==> levels[i].price == h.levels[i].price
    requires var m := Match(front, user, want); Flatten(levels) == m.kept + back && Sound(front, user, want, m)
    ensures var m := Match(front, user, want);
            && HalfOk(Half(levels, h.ids - Gone(m.fills)), bid, next)
            && Handles(m.kept + back) <= Handles(front + back)
            && Ids(m.kept + back) <= Ids(front + back)
  {
    hide Match, IndexOf, Gone, Handles, Ids, Unique;
    var m := Match(front, user, want);
    MatchFrontShrinks(front, back, user, want);
    assert AllLive(front) by { assert forall r :: r in front ==> r in front + back; }
    forall r | r in m.kept + back
      ensures r.node.order.Live() && if bid then r.node.order.side.IsBid() else r.node.order.side.IsAsk()
    {
      if r in m.kept {
        var was := KeptSame(front, user, want, r);
        assert was in front + back;
      } else {
        assert r in front + back;
      }
    }
  }

  lemma OwnKept(h: Half, o: OrderInfo, fills: seq<Fill>, next: nat)
    requires HalfOk(h, o.order.side.IsBid(), next) && o.order.side.Supported()
    requires o.order.orderId !in h.ids
    requires var left := Leftover(o, fills);
             && left.side == o.order.side && left.orderId == o.order.orderId && 0.0 <= left.remainQty <= left.originalQty
    ensures HalfOk(AddOwn(h, o, fills, next), o.order.side.IsBid(), next + 1)
    ensures var flat := Flatten(AddOwn(h, o, fills, next).levels);
            && Handles(flat) <= Handles(Flatten(h.levels)) + {next}
            && Ids(flat) <= Ids(Flatten(h.levels)) + {o.order.orderId}
  {
    hide Leftover, Rest, Flatten, InsertFlat, IndexOf, Unique, Handles, Ids;
    var left := Leftover(o, fills);
    if left.remainQty != 0.0 {
      var bid := o.order.side.IsBid();
      var node := Node(next, left);
      RestInserts(h.levels, bid, o.price, node);
      RestSorted(h.levels, bid, o.price, node);
      InsertUnique(Flatten(h.levels), bid, Resting(o.price, node));
      InsertMembers(Flatten(h.levels), bid, Resting(o.price, node));
    }
  }

  /** The opposite and own half in the order of BookOk's clauses. */
  predicate HalvesOk(opposite: Half, own: Half, bid: bool, next: nat) {
    && HalfOk(opposite, !bid, next) && HalfOk(own, bid, next)
    && opposite.ids.Keys !! own.ids.Keys
    && Handles(Flatten(opposite.levels)) !! Handles(Flatten(own.levels))
  }

  lemma AddHalvesOk(b: State, o: OrderInfo)
    requires BookOk(b) && WellFormed(New(o)) && !Has(b, o.order.orderId)
    ensures var side := o.order.side;
            HalvesOk(Opposite(Add(b, o), side), OwnHalf(Add(b, o), side), side.IsBid(), b.next + 1)
  {
    hide Add, AddOwn, Match, SweepLevels, IndexOf, Handles, Ids, Unique, Gone, Aggress, Uncrossed, Total, Flatten,
         InsertFlat;
    var side := o.order.side;
    var opposite, own := Opposite(b, side), OwnHalf(b, side);
    var front, back := AddEffect(b, o);
    var m := Match(front, o.order.userId, o.order.remainQty);
    SweepIsMatch(opposite.levels, side, o.price, o.order.userId, o.order.remainQty, b.tick);
    AddHalves(b, o);
    AggressAccount(Event(NewOrder, 0.0, 0.0, o.order), m.fills);
    OppositeKept(opposite, !side.IsBid(), b.next, front, back, o.order.userId, o.order.remainQty, SweepOf(b, o).levels);
    OwnKept(own, o, m.fills, b.next);
  }

  /** Only the user's own orders stay within reach of what rests, unless the tick rule stopped the order. */
  lemma AddUncrossed(b: State, o: OrderInfo)
    requires BookOk(b) && WellFormed(New(o)) && !Has(b, o.order.orderId)
    ensures Uncrossed(Bids(Add(b, o)), Asks(Add(b, o)))
  {
    hide Add, Match, IndexOf, Handles, Ids, Unique, Gone, Aggress, InsertFlat, SweepOf;
    var side := o.order.side;
    var front, back := AddEffect(b, o);
    var m := Match(front, o.order.userId, o.order.remainQty);
    AggressAccount(Event(NewOrder, 0.0, 0.0, o.order), m.fills);
    var rested := Resting(o.price, Node(b.next, Leftover(o, m.fills)));
    InsertMembers(FlatOwn(b, side), side.IsBid(), rested);
    assert AllLive(front) by { assert forall r :: r in front ==> r in front + back; }
    forall x, y | x in FlatOwn(Add(b, o), side) && y in FlatOpposite(Add(b, o), side)
      ensures if side.IsBid() then MayCross(x, y) else MayCross(y, x)
    {
      var was := y;
      if y in m.kept { was := KeptSame(front, o.order.userId, o.order.remainQty, y); }
      assert was in front + back;
      if x in FlatOwn(b, side) {
        assert if side.IsBid() then MayCross(x, was) else MayCross(was, x);
      }
    }
  }

  lemma AddKeeps(b: State, o: OrderInfo)
    requires BookOk(b) && WellFormed(New(o)) && !Has(b, o.order.orderId)
    ensures BookOk(Add(b, o))
  {
    hide SweepLevels, AddOwn, Aggress, Uncrossed, HalfOk, Handles;
    AddHalvesOk(b, o);
    AddUncrossed(b, o);
    Tick.TradeAllSettled(b.tick, Prices(SweepOf(b, o).fills));
  }

  // ---- cancel keeps the invariant ----

  /** The resting order an id stands for on one side. */
  lemma Located(h: Half, bid: bool, next: nat, id: OrderId) returns (r: Resting)
    requires HalfOk(h, bid, next) && id in h.ids
    ensures r in Flatten(h.levels) && r.node.order.orderId == id
    ensures h.ids[id] == IdInfo(r.node.handle, r.price)
    ensures Deref(h.levels, h.ids[id]) == Some(r.node.order)
    ensures Flatten(Erase(h.levels, h.ids[id])) == RemoveFlat(Flatten(h.levels), r.node.handle)
  {
    hide IndexOf, Deref, Erase, Unique;
    var flat := Flatten(h.levels);
    IndexLocates(flat);
    r :| r in flat && r.node.order.orderId == id && IndexOf(flat)[id] == IdInfo(r.node.handle, r.price);
    EraseIsRemove(h.levels, bid, r);
    RemoveSum(flat, r);
  }

  lemma EraseOk(h: Half, bid: bool, next: nat, id: OrderId)
    requires HalfOk(h, bid, next) && id in h.ids
    ensures HalfOk(Half(Erase(h.levels, h.ids[id]), h.ids - {id}), bid, next)
    ensures var flat := Flatten(Erase(h.levels, h.ids[id]));
            && Handles(flat) <= Handles(Flatten(h.levels))
            && forall x :: x in flat ==> x in Flatten(h.levels)
  {
    hide IndexOf, Deref, Erase, Unique, Handles, Ids;
    var r := Located(h, bid, next, id);
    EraseIsRemove(h.levels, bid, r);
    RemoveIndex(Flatten(h.levels), r);
    RemoveSum(Flatten(h.levels), r);
  }

  lemma CancelKeeps(b: State, id: OrderId, side: Side)
    requires BookOk(b) && side.Supported() && id in OwnHalf(b, side).ids
    ensures BookOk(Cancel(b, id, side))
  {
    hide HalfOk, Erase, Handles;
    EraseOk(OwnHalf(b, side), side.IsBid(), b.next, id);
  }

  // ---- every run ----

  /** Every request keeps the invariant: the workers' own checks provide what add and cancel rely on. */
  lemma ExecKeeps(b: State, r: Request)
    requires BookOk(b) && WellFormed(r)
    ensures BookOk(Exec(b, r))
  {
    hide BookOk, Add, Cancel, GetOrder;
    if Accepts(b, r) {
      match r
      case New(o) => AddKeeps(b, o);
      case CancelOf(id, side, _) => CancelKeeps(b, id, side);
    }
  }

  /** Index agreement and the crossing rule hold in every book reachable from the empty one. */
  lemma {:induction false} RunKeeps(rs: seq<Request>)
    requires forall r :: r in rs ==> WellFormed(r)
    ensures BookOk(Run(EMPTY, rs))
  {
    hide Exec;
    if rs != [] {
      RunKeeps(rs[..|rs| - 1]);
      ExecKeeps(Run(EMPTY, rs[..|rs| - 1]), rs[|rs| - 1]);
    }
  }

  /** An id is known exactly when an order with it rests. */
  lemma KnownIffResting(b: State, id: OrderId)
    requires BookOk(b)
    ensures Has(b, id) <==> exists r :: r in Bids(b) + Asks(b) && r.node.order.orderId == id
  {
    hide Uncrossed, IndexOf, Deref, Unique;
    IndexLocates(Bids(b));
    IndexLocates(Asks(b));
    if id in b.bids.ids {
      var r := Located(b.bids, true, b.next, id);
      assert r in Bids(b) + Asks(b);
    } else if id in b.asks.ids {
      var r := Located(b.asks, false, b.next, id);
      assert r in Bids(b) + Asks(b);
    }
  }

  /** A resting order is the only one with its id on either side, is found by it, and located by its entry. */
  lemma RestingFound(b: State, r: Resting)
    requires BookOk(b) && r in Bids(b) + Asks(b)
    ensures var id, side := r.node.order.orderId, r.node.order.side;
            && GetOrder(b, id) == Some(r.node.order)
            && HasOn(b, id, side) && OwnHalf(b, side).ids[id] == IdInfo(r.node.handle, r.price)
            && (forall s :: s in Bids(b) + Asks(b) && s.node.order.orderId == id ==> s == r)
  {
    hide Uncrossed, IndexOf, Deref, Unique, Flatten;
    var id := r.node.order.orderId;
    forall s | s in Bids(b) + Asks(b) && s.node.order.orderId == id ensures s == r {
      SameIdSame(Bids(b), r, s);
      SameIdSame(Asks(b), r, s);
    }
    SameIdSame(Bids(b), r, r);
    SameIdSame(Asks(b), r, r);
    if r in Bids(b) {
      var s := Located(b.bids, true, b.next, id);
      assert s in Bids(b) + Asks(b);
    } else {
      var s := Located(b.asks, false, b.next, id);
      assert s in Bids(b) + Asks(b);
    }
  }

  lemma SameIdSame(flat: seq<Resting>, r: Resting, s: Resting)
    requires Unique(flat) && r.node.order.orderId == s.node.order.orderId
    ensures r in flat && s in flat ==> r == s
    ensures r in flat ==> r.node.order.orderId in Ids(flat)
    ensures s in flat ==> s.node.order.orderId in Ids(flat)
  {
    IndexLocates(flat);
    if r in flat && s in flat {
      var i, j :| 0 <= i < |flat| && 0 <= j < |flat| && flat[i] == r && flat[j] == s;
    }
  }
}

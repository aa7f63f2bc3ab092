/** What an add tells the owners of the orders it trades with, and its taker, in terms of the book before and after. */
module Reporting {
  import opened Core
  import opened Matching
  import opened MatchLemmas
  import opened Book
  import opened Index
  import opened Invariant
  import opened EmptyLevels
  import opened Priority
  import History
  import Ledger
  import Tick

  // ---- The trades of one pass ----

  /** Each fill is of the order at its place, in the order of the list. */
  ghost predicate FillsAt(flat: seq<Resting>, fills: seq<Fill>, ps: seq<nat>) {
    && |ps| == |fills|
    && (forall i, j :: 0 <= i < j < |ps| ==> ps[i] < ps[j])
    && (forall i :: 0 <= i < |ps| ==> ps[i] < |flat| && Resting(fills[i].price, fills[i].before) == flat[ps[i]])
  }

  function Shifted(ps: seq<nat>): seq<nat> { seq(|ps|, i requires 0 <= i < |ps| => ps[i] + 1) }

  lemma {:induction false} FillPositions(flat: seq<Resting>, user: UserId, want: Quantity) returns (ps: seq<nat>)
    ensures FillsAt(flat, Match(flat, user, want).fills, ps)
    decreases |flat|
  {
    if flat == [] || want == 0.0 {
      ps := [];
    } else {
      var h := MatchOne(flat[0], user, want);
      var left := want - Total(h.fills);
      var qs := FillPositions(flat[1..], user, left);
      ps := (if h.fills == [] then [] else [0]) + Shifted(qs);
      FillsShift(flat, h.fills, Match(flat[1..], user, left).fills, qs);
    }
  }

  lemma FillsShift(flat: seq<Resting>, h: seq<Fill>, t: seq<Fill>, qs: seq<nat>)
    requires flat != [] && FillsAt(flat[1..], t, qs)
    requires h == [] || (|h| == 1 && Resting(h[0].price, h[0].before) == flat[0])
    ensures FillsAt(flat, h + t, (if h == [] then [] else [0]) + Shifted(qs))
  {
  }

  /** How much of an order is left in a list: what it shows, or nothing if it is gone. */
  function LeftOf(flat: seq<Resting>, handle: nat): Quantity {
    if flat == [] then 0.0
    else if flat[0].node.handle == handle then flat[0].node.order.remainQty
    else LeftOf(flat[1..], handle)
  }

  lemma {:induction false} LeftOfAppend(a: seq<Resting>, b: seq<Resting>, handle: nat)
    ensures LeftOf(a + b, handle) == if handle in Handles(a) then LeftOf(a, handle) else LeftOf(b, handle)
    ensures handle !in Handles(a) ==> LeftOf(a, handle) == 0.0
  {
    if a == [] {
      assert a + b == b;
    } else {
      assert (a + b)[1..] == a[1..] + b;
      LeftOfAppend(a[1..], b, handle);
    }
  }

  /** A filled order is left with what it had less the fill, or gone. */
  lemma {:induction false} FillLeaves(flat: seq<Resting>, user: UserId, want: Quantity, f: Fill)
    requires Unique(flat) && f in Match(flat, user, want).fills
    ensures LeftOf(Match(flat, user, want).kept, f.before.handle) == f.before.order.remainQty - f.qty
    decreases |flat|
  {
    hide MatchOne, Ids, IndexOf, Total, Gone;
    var h := MatchOne(flat[0], user, want);
    var left := want - Total(h.fills);
    var t := Match(flat[1..], user, left);
    LeftOfAppend(h.kept, t.kept, f.before.handle);
    MatchShrinks(flat[1..], user, left);
    LeftOfAppend(t.kept, [], f.before.handle);
    assert t.kept + [] == t.kept;
    HandleOfOne(flat[0], user, want);
    if f in h.fills {
    } else {
      FillLeaves(flat[1..], user, left, f);
      History.FillsComeFrom(flat[1..], user, left);
      var i :| 0 <= i < |t.fills| && t.fills[i] == f;
      assert History.From(t.fills[i], flat[1..]);
    }
  }

  lemma HandleOfOne(r: Resting, user: UserId, want: Quantity)
    ensures var h := MatchOne(r, user, want);
      && |h.fills| <= 1 && |h.kept| <= 1 && Handles(h.kept) <= {r.node.handle}
      && (h.fills != [] ==>
            && h.fills[0].before == r.node
            && (h.kept == [] ==> h.fills[0].qty == r.node.order.remainQty)
            && (h.kept != [] ==> LeftOf(h.kept, r.node.handle) == r.node.order.remainQty - h.fills[0].qty
                                 && r.node.handle in Handles(h.kept)))
  {
    hide Blend;
  }

  /** An order a pass does not fill stays as it is. */
  lemma {:induction false} FilledOrKept(flat: seq<Resting>, user: UserId, want: Quantity)
    ensures var m := Match(flat, user, want);
      forall r :: r in flat ==> TradedWith(m.fills, r.node) || r in m.kept
    decreases |flat|
  {
    hide MatchOne, Total;
    if flat != [] && want != 0.0 {
      var h := MatchOne(flat[0], user, want);
      var left := want - Total(h.fills);
      FilledOrKept(flat[1..], user, left);
      OneFilledOrKept(flat[0], user, want);
      EitherPart(flat, h, Match(flat[1..], user, left));
    }
  }

  lemma OneFilledOrKept(r: Resting, user: UserId, want: Quantity)
    ensures var h := MatchOne(r, user, want); TradedWith(h.fills, r.node) || r in h.kept
  {
    hide Blend;
    var h := MatchOne(r, user, want);
    if h.fills != [] { assert h.fills[0] in h.fills && h.fills[0].before == r.node; }
  }

  lemma EitherPart(flat: seq<Resting>, h: Matched, t: Matched)
    requires flat != [] && (TradedWith(h.fills, flat[0].node) || flat[0] in h.kept)
    requires forall r :: r in flat[1..] ==> TradedWith(t.fills, r.node) || r in t.kept
    ensures forall r :: r in flat ==> TradedWith(Join(h, t).fills, r.node) || r in Join(h, t).kept
  {
    forall r | r in flat ensures TradedWith(h.fills + t.fills, r.node) || r in h.kept + t.kept {
      var part := if r == flat[0] then h else t;
      assert r == flat[0] || r in flat[1..];
      if TradedWith(part.fills, r.node) {
        var f :| f in part.fills && f.before == r.node;
        assert f in h.fills + t.fills;
      }
    }
  }

  // ---- The events of an add ----

  /** What the owner of a resting order is told when some of it is traded and so much is left: the price it rested at, the
      quantity it lost, and the order with what is left and its exact new average. */
  predicate Tells(x: Event, r: Resting, left: Quantity) {
    var was := r.node.order;
    && x.lastPrice == r.price && x.lastQty == was.remainQty - left && x.lastQty > 0.0
    && x.execStatus == (if left == 0.0 then Filled else PartiallyFilled)
    && x.order == was.(remainQty := left, avgPrice := x.order.avgPrice)
    && x.order.avgPrice * (was.originalQty - left) == was.avgPrice * (was.originalQty - was.remainQty) + x.lastPrice * x.lastQty
  }

  function SumMoney(events: seq<Event>): real {
    if events == [] then 0.0 else events[0].lastPrice * events[0].lastQty + SumMoney(events[1..])
  }

  /** What the taker is told after the owners were told xs: nothing if nothing was traded, or if the tick rule stopped it
      before it had all; else one event with the last trade, all it bought and its exact average. */
  predicate TellsTaker(ys: seq<Event>, o: OrderInfo, xs: seq<Event>, stopped: bool) {
    var bought := SumLastQty(xs);
    if xs == [] || (stopped && bought != o.order.originalQty) then ys == []
    else
      && |ys| == 1
      && ys[0].lastPrice == xs[|xs| - 1].lastPrice && ys[0].lastQty == xs[|xs| - 1].lastQty
      && ys[0].execStatus == (if bought == o.order.originalQty then Filled else PartiallyFilled)
      && ys[0].order == o.order.(remainQty := o.order.originalQty - bought, avgPrice := ys[0].order.avgPrice)
      && ys[0].order.avgPrice * bought == SumMoney(xs)
  }

  /** The owners' events, by the book before and after. */
  ghost predicate TellsOwners(xs: seq<Event>, ps: seq<nat>, was: seq<Resting>, now: seq<Resting>) {
    && |ps| == |xs|
    && (forall i, j :: 0 <= i < j < |ps| ==> ps[i] < ps[j])
    && (forall i :: 0 <= i < |ps| ==> ps[i] < |was| && Tells(xs[i], was[ps[i]], LeftOf(now, was[ps[i]].node.handle)))
    && (forall j :: 0 <= j < |was| && j !in ps ==> was[j] in now)
  }

  lemma ReportTells(f: Fill, left: Quantity)
    requires GoodFill(f) && left == f.before.order.remainQty - f.qty
    ensures Tells(Report(f), Resting(f.price, f.before), left)
  {
    hide Blend;
    var o := f.before.order;
    BlendExact(o.CumQty(), o.avgPrice, f.qty, f.price);
  }

  lemma {:induction false} ReportsMoney(fills: seq<Fill>)
    ensures SumMoney(Reports(fills)) == Notional(fills)
  {
    hide Blend;
    if fills != [] {
      assert Reports(fills)[1..] == Reports(fills[1..]);
      ReportsMoney(fills[1..]);
    }
  }

  /** What is left of a filled order in the whole side. */
  lemma LeftInBook(front: seq<Resting>, back: seq<Resting>, user: UserId, want: Quantity, f: Fill)
    requires Unique(front + back) && f in Match(front, user, want).fills
    ensures LeftOf(Match(front, user, want).kept + back, f.before.handle) == f.before.order.remainQty - f.qty
  {
    hide Match, Unique, Handles;
    UniqueAppend(front, back);
    FillLeaves(front, user, want, f);
    LeftOfAppend(Match(front, user, want).kept, back, f.before.handle);
    History.FillsComeFrom(front, user, want);
    var fills := Match(front, user, want).fills;
    var i :| 0 <= i < |fills| && fills[i] == f;
    assert History.From(fills[i], front);
    LeftOfAppend(back, [], f.before.handle);
    assert back + [] == back;
  }

  lemma OwnersTold(front: seq<Resting>, back: seq<Resting>, user: UserId, want: Quantity) returns (ps: seq<nat>)
    requires Unique(front + back) && AllLive(front) && want >= 0.0
    ensures var m := Match(front, user, want); TellsOwners(Reports(m.fills), ps, front + back, m.kept + back)
  {
    hide Match, Unique, Report, Tells, Handles, GoodFill;
    var m := Match(front, user, want);
    ps := FillPositions(front, user, want);
    MatchSound(front, user, want);
    var was := front + back;
    forall i | 0 <= i < |ps|
      ensures ps[i] < |was| && Tells(Reports(m.fills)[i], was[ps[i]], LeftOf(m.kept + back, was[ps[i]].node.handle))
    {
      assert m.fills[i] in m.fills && was[ps[i]] == front[ps[i]];
      LeftInBook(front, back, user, want, m.fills[i]);
      ReportTells(m.fills[i], LeftOf(m.kept + back, m.fills[i].before.handle));
    }
    FilledOrKept(front, user, want);
    UniqueAppend(front, back);
    IndexLocates(front);
    forall j | 0 <= j < |was| && j !in ps ensures was[j] in m.kept + back {
      if j >= |front| {
        assert was[j] == back[j - |front|];
      } else {
        assert was[j] == front[j];
        NotFilledThere(front, m.fills, ps, j);
      }
    }
  }

  lemma NotFilledThere(flat: seq<Resting>, fills: seq<Fill>, ps: seq<nat>, j: nat)
    requires FillsAt(flat, fills, ps) && DistinctHandles(flat) && j < |flat| && j !in ps
    ensures !TradedWith(fills, flat[j].node)
  {
    forall f | f in fills ensures f.before != flat[j].node {
      var i :| 0 <= i < |fills| && fills[i] == f;
      assert ps[i] in ps && flat[ps[i]].node == f.before;
    }
  }

  /** The events of one add, told by the book before and after: the owners of the orders traded with, in the order of
      the book; whoever is not told anything has lost nothing; then the taker. */
  lemma AddTells(b: State, o: OrderInfo) returns (xs: seq<Event>, ys: seq<Event>, ps: seq<nat>)
    requires BookOk(b) && WellFormed(New(o))
    ensures Add(b, o).events == b.events + xs + ys
    ensures TellsOwners(xs, ps, FlatOpposite(b, o.order.side), FlatOpposite(Add(b, o), o.order.side))
    ensures TellsTaker(ys, o, xs, TurnsAndStops(Opposite(b, o.order.side).levels, o.order.side, o.price, o.order.userId,
                                                o.order.originalQty, b.tick.last))
  {
    hide Match, SweepOf, Add, Uncrossed, Reports, TakerReport, IndexOf, AllLive, TellsOwners, TellsTaker, InsertFlat,
         Leftover, TurnsAndStops, SortedLevels, Flatten, Unique;
    var front, back := AddEffect(b, o);
    var s := SweepOf(b, o);
    xs, ys := Reports(s.fills), TakerReport(o, s);
    History.AddRest(b, o);
    FrontLive(b, o, front, back);
    ps := OwnersTold(front, back, o.order.userId, o.order.remainQty);
    TakerTold(b, o);
  }

  lemma FrontLive(b: State, o: OrderInfo, front: seq<Resting>, back: seq<Resting>)
    requires BookOk(b) && FlatOpposite(b, o.order.side) == front + back
    ensures Unique(front + back) && AllLive(front)
  {
    OppositeOk(b, o.order.side);
    hide BookOk, HalfOk, Flatten, Unique;
    assert forall r :: r in front ==> r in front + back;
  }

  lemma TakerTold(b: State, o: OrderInfo)
    requires BookOk(b) && WellFormed(New(o))
    ensures var s, side := SweepOf(b, o), o.order.side;
      TellsTaker(TakerReport(o, s), o, Reports(s.fills),
                 TurnsAndStops(Opposite(b, side).levels, side, o.price, o.order.userId, o.order.originalQty, b.tick.last))
  {
    hide SweepLevels, BookOk, Flatten, Aggress, TurnsAndStops, Reports, Tick.Allows, Match;
    var levels, side := Opposite(b, o.order.side).levels, o.order.side;
    OppositeOk(b, side);
    hide SortedLevels, AllLive, HalfOk, FlatOk;
    var s := SweepOf(b, o);
    SweepGood(levels, side, o.price, o.order.userId, o.order.remainQty, b.tick);
    if Tick.Allows(b.tick, side) {
      BlockedExactly(levels, side, o.price, o.order.userId, o.order.remainQty, b.tick);
    } else {
      NothingBegun(levels, o, b.tick);
    }
    TakerSays(o, s);
  }

  /** The taker's event, by the events of the owners. */
  lemma TakerSays(o: OrderInfo, s: Sweep)
    requires WellFormed(New(o)) && GoodFills(s.fills)
    ensures TellsTaker(TakerReport(o, s), o, Reports(s.fills), s.blocked)
    ensures s.fills == [] ==> forall stopped :: TellsTaker(TakerReport(o, s), o, Reports(s.fills), stopped)
  {
    hide Aggress, GoodFill, Reports, Total, Notional, TakerReport, TellsTaker, SumLastQty, SumMoney;
    ReportsAccount(s.fills);
    ReportsMoney(s.fills);
    AggressAccount(Event(NewOrder, 0.0, 0.0, o.order), s.fills);
    NothingTimes(o.order.avgPrice, o.order.CumQty());
    Ledger.TotalPositive(s.fills);
    TotalNothing();
    LastReport(s.fills);
    TakerWords(o, s, Reports(s.fills));
  }

  lemma NothingTimes(x: real, zero: real)
    requires zero == 0.0
    ensures x * zero == 0.0
  {
  }

  lemma TakerWords(o: OrderInfo, s: Sweep, xs: seq<Event>)
    requires WellFormed(New(o)) && |xs| == |s.fills| && SumLastQty(xs) >= 0.0
    requires s.fills == [] <==> SumLastQty(xs) == 0.0
    requires var e := Taker(o, s.fills);
      && e.order == o.order.(remainQty := o.order.originalQty - SumLastQty(xs), avgPrice := e.order.avgPrice)
      && e.order.avgPrice * e.order.CumQty() == SumMoney(xs)
      && (xs != [] ==> e.lastPrice == xs[|xs| - 1].lastPrice && e.lastQty == xs[|xs| - 1].lastQty)
    ensures TellsTaker(TakerReport(o, s), o, xs, s.blocked)
    ensures s.fills == [] ==> forall stopped :: TellsTaker(TakerReport(o, s), o, xs, stopped)
  {
    hide Aggress, Taker, SumLastQty, SumMoney;
    assert Taker(o, s.fills).order.CumQty() == SumLastQty(xs);
  }

  lemma LastReport(fills: seq<Fill>)
    ensures |Reports(fills)| == |fills|
    ensures fills != [] ==>
      var x, f := Reports(fills)[|fills| - 1], fills[|fills| - 1]; x.lastPrice == f.price && x.lastQty == f.qty
  {
  }

  // ---- What rests of the taker ----

  /** The place an order gets in a list: behind every order at its price or a better one, in front of every order at a
      worse price. */
  ghost predicate PlacedAt(was: seq<Resting>, now: seq<Resting>, r: Resting, bid: bool, k: nat) {
    && k <= |was| && now == was[..k] + [r] + was[k..]
    && (forall i :: 0 <= i < k ==> if bid then was[i].price >= r.price else was[i].price <= r.price)
    && (forall i :: k <= i < |was| ==> if bid then was[i].price < r.price else was[i].price > r.price)
  }

  predicate SortedFlat(flat: seq<Resting>, bid: bool) {
    forall i, j :: 0 <= i < j < |flat| ==> if bid then flat[i].price >= flat[j].price else flat[i].price <= flat[j].price
  }

  lemma {:induction false} FlatSorted(levels: seq<Level>, bid: bool)
    requires SortedLevels(levels, bid)
    ensures SortedFlat(Flatten(levels), bid)
  {
    if levels != [] {
      SortedTail(levels, bid);
      FlatSorted(levels[1..], bid);
    }
  }

  lemma {:induction false} InsertPlaces(was: seq<Resting>, bid: bool, r: Resting) returns (k: nat)
    requires SortedFlat(was, bid)
    ensures PlacedAt(was, InsertFlat(was, bid, r), r, bid, k)
  {
    if was == [] || Before(bid, r.price, was[0].price) {
      k := 0;
      assert was[..0] + [r] + was[0..] == [r] + was;
    } else {
      assert forall i :: 0 <= i < |was[1..]| ==> was[1..][i] == was[i + 1];
      var j := InsertPlaces(was[1..], bid, r);
      k := j + 1;
      PlacedBehind(was, InsertFlat(was[1..], bid, r), r, bid, j);
    }
  }

  lemma PlacedBehind(was: seq<Resting>, now: seq<Resting>, r: Resting, bid: bool, j: nat)
    requires was != [] && PlacedAt(was[1..], now, r, bid, j)
    requires if bid then was[0].price >= r.price else was[0].price <= r.price
    ensures PlacedAt(was, [was[0]] + now, r, bid, j + 1)
  {
    var t := was[1..];
    assert [was[0]] + t[..j] == was[..j + 1] && t[j..] == was[j + 1..];
    assert [was[0]] + (t[..j] + [r] + t[j..]) == ([was[0]] + t[..j]) + [r] + t[j..];
    assert forall i :: 0 <= i < |t| ==> t[i] == was[i + 1];
    forall i | 0 <= i < j + 1 ensures if bid then was[i].price >= r.price else was[i].price <= r.price {
      if i > 0 { assert t[i - 1] == was[i]; }
    }
    forall i | j + 1 <= i < |was| ensures if bid then was[i].price < r.price else was[i].price > r.price {
      assert t[i - 1] == was[i];
    }
  }

  /** What an add leaves on the taker's own side: nothing new if it bought all it asked for, by what the other side lost;
      else the rest of it, at its price, behind all that is as good. */
  lemma AddPlaces(b: State, o: OrderInfo) returns (r: Resting, k: nat)
    requires BookOk(b) && WellFormed(New(o))
    ensures var side := o.order.side;
      var was, now := FlatOwn(b, side), FlatOwn(Add(b, o), side);
      var bought := SumRemain(FlatOpposite(b, side)) - SumRemain(FlatOpposite(Add(b, o), side));
      if bought == o.order.originalQty then now == was
      else
        && PlacedAt(was, now, r, side in {Buy, BuyMinus}, k)
        && r.price == o.price && r.node.handle == b.next
        && r.node.order == o.order.(remainQty := o.order.originalQty - bought, avgPrice := r.node.order.avgPrice,
                                    status := if bought == 0.0 then NewOrder else PartiallyFilled)
  {
    hide Match, SweepOf, Add, BookOk, Aggress, Flatten, SumRemain, InsertFlat, AllLive, PlacedAt;
    var side := o.order.side;
    var front, back := AddEffect(b, o);
    var m := Match(front, o.order.userId, o.order.remainQty);
    SumRemainAppend(front, back);
    SumRemainAppend(m.kept, back);
    AggressAccount(Event(NewOrder, 0.0, 0.0, o.order), m.fills);
    r := Resting(o.price, Node(b.next, Leftover(o, m.fills)));
    OwnSorted(b, side);
    k := InsertPlaces(FlatOwn(b, side), side.IsBid(), r);
  }

  lemma OwnSorted(b: State, side: Side)
    requires BookOk(b)
    ensures SortedFlat(FlatOwn(b, side), side.IsBid())
  {
    hide Uncrossed, FlatOk, SortedFlat;
    FlatSorted(OwnHalf(b, side).levels, side.IsBid());
  }
}

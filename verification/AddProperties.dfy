/** What one add promises its caller: events, priority, and that an untraded order can be taken back. */
module AddProperties {
  import opened Core
  import opened Matching
  import opened MatchLemmas
  import opened Priority
  import opened Book
  import opened Index
  import opened Invariant
  import opened FlatBook
  import opened Ledger
  import History
  import Tick

  /** The events of one add: one per traded resting order in the order of the trades, then the taker's own
      exactly if something was traded and the tick rule did not stop it. The resting events' quantities add
      up to what the taker got, and Filled means that nothing remains, in every event. */
  lemma EventAccounting(b: State, o: OrderInfo)
    requires BookOk(b) && WellFormed(New(o))
    ensures var s := SweepOf(b, o);
            var e := Taker(o, s.fills);
            && Add(b, o).events == b.events + Reports(s.fills) + TakerReport(o, s)
            && |Reports(s.fills)| == |s.fills|
            && SumLastQty(Reports(s.fills)) == e.order.CumQty()
            && (forall x :: x in Reports(s.fills) + TakerReport(o, s) ==> (x.execStatus == Filled <==> x.order.remainQty == 0.0))
            && |TakerReport(o, s)| == (if s.fills != [] && !s.blocked then 1 else 0)
            && (forall x :: x in TakerReport(o, s) ==> x.order == e.order && x.lastQty == s.fills[|s.fills| - 1].qty)
            && (o.order.side.Plain() ==> !s.blocked)
  {
    hide Match, SweepLevels, Aggress, BookOk, Add, Reports;
    History.AddRest(b, o);
    var front, back := SweepEffect(b, o);
    var s := SweepOf(b, o);
    ReportsAccount(s.fills);
    AggressAccount(Event(NewOrder, 0.0, 0.0, o.order), s.fills);
    TotalPositive(s.fills);
    var levels := Opposite(b, o.order.side).levels;
    OppositeOk(b, o.order.side);
    SweepIsMatch(levels, o.order.side, o.price, o.order.userId, o.order.remainQty, b.tick);
  }

  /** Price-time priority in the book: if add traded with an order, everything that stood ahead of it and is
      not the taker's own has left the book, the taker's own orders stand as before, and at most one order
      is left partly filled, in which case the taker got everything it asked for. */
  lemma AddPriority(b: State, o: OrderInfo)
    requires BookOk(b) && WellFormed(New(o))
    ensures var side, user := o.order.side, o.order.userId;
            var was, now, fills := FlatOpposite(b, side), FlatOpposite(Add(b, o), side), SweepOf(b, o).fills;
      && (forall i, j :: 0 <= i < j < |was| && TradedWith(fills, was[j].node) && was[i].node.order.userId != user
            ==> !StillThere(now, was[i].node.handle))
      && (forall r :: r in was && r.node.order.userId == user ==> r in now)
      && (forall r, x :: r in now && x in now && r !in was && x !in was ==> r == x)
      && (forall r :: r in now && r !in was ==> Total(fills) == o.order.originalQty)
  {
    hide Match, SweepOf, Add, Uncrossed, HalfOk, AllLive, Unique, Sound, InsertFlat, Leftover;
    var side, user := o.order.side, o.order.userId;
    var front, back := AddEffect(b, o);
    var m := Match(front, user, o.order.remainQty);
    OppositeDistinct(b, side, front, back);
    PriceTimePriority(front, user, o.order.remainQty);
    FillsInFront(front, back, user, o.order.remainQty);
    BackHandles(front, back, user, o.order.remainQty);
  }

  lemma OppositeDistinct(b: State, side: Side, front: seq<Resting>, back: seq<Resting>)
    requires BookOk(b) && FlatOpposite(b, side) == front + back
    ensures AllLive(front) && DistinctHandles(front) && Unique(front + back)
  {
    hide Uncrossed, IndexOf;
    UniqueAppend(front, back);
    IndexLocates(front);
    assert forall r :: r in front ==> r in front + back;
  }

  /** Only orders of the front are traded with. */
  lemma FillsInFront(front: seq<Resting>, back: seq<Resting>, user: UserId, want: Quantity)
    requires Unique(front + back)
    ensures forall j :: |front| <= j < |front + back| ==> !TradedWith(Match(front, user, want).fills, (front + back)[j].node)
  {
    hide Match;
    UniqueAppend(front, back);
    History.BackUntouched(front, back, user, want);
    forall j | |front| <= j < |front + back|
      ensures !TradedWith(Match(front, user, want).fills, (front + back)[j].node)
    {
      assert (front + back)[j] in back;
    }
  }

  /** The back's nodes are not the front's. */
  lemma BackHandles(front: seq<Resting>, back: seq<Resting>, user: UserId, want: Quantity)
    requires Unique(front + back)
    ensures forall i :: 0 <= i < |front| ==> !StillThere(back, front[i].node.handle)
  {
    UniqueAppend(front, back);
    IndexLocates(front);
    IndexLocates(back);
    forall i | 0 <= i < |front| ensures !StillThere(back, front[i].node.handle) {
      assert front[i] in front;
    }
  }

  // ---- Undo ----

  lemma {:induction false} InsertThenRemove(flat: seq<Resting>, descending: bool, r: Resting)
    requires r.node.handle !in Handles(flat)
    ensures RemoveFlat(InsertFlat(flat, descending, r), r.node.handle) == flat
  {
    if flat != [] && !Before(descending, r.price, flat[0].price) { InsertThenRemove(flat[1..], descending, r); }
  }

  /** An order nothing was traded with can be taken back: the cancel worker accepts a cancel of its whole
      quantity, and afterwards both sides, the tick and the events are as if it had never come. */
  lemma CancelUndoesAdd(b: State, o: OrderInfo)
    requires BookOk(b) && WellFormed(New(o)) && !Has(b, o.order.orderId) && SweepOf(b, o).fills == []
    ensures var id, side := o.order.orderId, o.order.side;
            && Accepts(Add(b, o), CancelOf(id, side, o.order.originalQty))
            && Flat(Cancel(Add(b, o), id, side)) == Flat(b).(next := b.next + 1)
  {
    hide Match, SweepOf, Uncrossed, Unique, IndexOf, Add, Deref, Erase, InsertFlat, RemoveFlat, Handles, GetOrder;
    var id, side := o.order.orderId, o.order.side;
    var front, back := AddEffect(b, o);
    AddKeeps(b, o);
    NothingTraded(front, o.order.userId, o.order.remainQty);
    var after := Add(b, o);
    var rested := Resting(o.price, Node(b.next, Leftover(o, [])));
    InsertMembers(FlatOwn(b, side), side.IsBid(), rested);
    RestingFound(after, rested);
    var x := Located(OwnHalf(after, side), side.IsBid(), after.next, id);
    SameIdSame(FlatOwn(after, side), x, rested);
    InsertThenRemove(FlatOwn(b, side), side.IsBid(), rested);
    UntradedQuiet(b, o);
  }

  /** A pass without fills keeps everything. */
  lemma {:induction false} NothingTraded(flat: seq<Resting>, user: UserId, want: Quantity)
    ensures Match(flat, user, want).fills == [] ==> Match(flat, user, want).kept == flat
    decreases |flat|
  {
    if flat != [] && want != 0.0 {
      NothingTraded(flat[1..], user, want - Total(MatchOne(flat[0], user, want).fills));
    }
  }

  lemma UntradedQuiet(b: State, o: OrderInfo)
    requires SweepOf(b, o).fills == [] && WellFormed(New(o))
    ensures Add(b, o).tick == b.tick && Add(b, o).events == b.events && Add(b, o).next == b.next + 1
  {
    assert Prices([]) == [];
    assert Reports([]) == [];
  }
}

/** What is accepted and what is not, told by the resting orders and the trade history alone. */
module Acceptance {
  import opened Core
  import opened Matching
  import opened Book
  import opened Index
  import opened Invariant
  import opened Ledger
  import History
  import Tick

  /** An order with the id rests in the book. */
  ghost predicate Rests(b: State, id: OrderId) { exists r :: r in Bids(b) + Asks(b) && r.node.order.orderId == id }

  /** BuyMinus waits for the price not to have fallen last, SellPlus for it to have fallen. */
  predicate Lets(d: Tick.Direction, side: Side) {
    && (side.BuyMinus? ==> d in {Tick.PlusTick, Tick.ZeroPlusTick})
    && (side.SellPlus? ==> d in {Tick.MinusTick, Tick.ZeroMinusTick})
  }

  /** The answer to a new order, exactly: it is added if the tick lets its side trade and its id is new; otherwise the
      book stays as it is. */
  lemma NewExactly(b: State, o: OrderInfo)
    requires BookOk(b) && WellFormed(New(o))
    ensures Exec(b, New(o)) ==
      if Lets(b.tick.direction, o.order.side) && !Rests(b, o.order.orderId) then Add(b, o) else b
    ensures Exec(b, New(o)) != b <==> Lets(b.tick.direction, o.order.side) && !Rests(b, o.order.orderId)
  {
    hide BookOk, Add;
    KnownIffResting(b, o.order.orderId);
    History.AddRest(b, o);
  }

  /** The resting order a cancel asks for: the id, a supported side of the same book side, the quantity left. */
  predicate Meant(r: Resting, id: OrderId, side: Side, qty: Quantity) {
    && r.node.order.orderId == id && r.node.order.remainQty == qty
    && (if side.IsBid() then r.node.order.side.IsBid() else side.IsAsk() && r.node.order.side.IsAsk())
  }

  /** The answer to a cancel, exactly: the one order meant is taken out of its list and nothing else changes; if there
      is none, nothing changes at all. */
  lemma CancelExactly(b: State, id: OrderId, side: Side, qty: Quantity)
    requires BookOk(b)
    ensures (exists r :: r in Bids(b) + Asks(b) && Meant(r, id, side, qty)) ==>
      var c := Exec(b, CancelOf(id, side, qty));
      && FlatOpposite(c, side) == FlatOpposite(b, side)
      && c.tick == b.tick && c.events == b.events && c.next == b.next
      && exists k: nat :: k < |FlatOwn(b, side)| && Meant(FlatOwn(b, side)[k], id, side, qty)
           && FlatOwn(c, side) == FlatOwn(b, side)[..k] + FlatOwn(b, side)[k + 1..]
    ensures !(exists r :: r in Bids(b) + Asks(b) && Meant(r, id, side, qty)) ==> Exec(b, CancelOf(id, side, qty)) == b
  {
    hide Uncrossed, Unique, Deref, Erase, GetOrder, IndexOf, Flatten, RemoveFlat, AllLive, SortedLevels;
    if r :| r in Bids(b) + Asks(b) && Meant(r, id, side, qty) {
      RestingFound(b, r);
      var h := OwnHalf(b, side);
      assert Accepts(b, CancelOf(id, side, qty));
      var x := Located(h, side.IsBid(), b.next, id);
      assert x in Bids(b) + Asks(b);
      var k := RemovedAt(FlatOwn(b, side), x);
    } else {
      AcceptedIsMeant(b, id, side, qty);
    }
  }

  lemma AcceptedIsMeant(b: State, id: OrderId, side: Side, qty: Quantity)
    requires BookOk(b)
    ensures Accepts(b, CancelOf(id, side, qty)) ==> exists r :: r in Bids(b) + Asks(b) && Meant(r, id, side, qty)
  {
    hide Uncrossed, Unique, Deref, GetOrder, IndexOf, Flatten, AllLive, SortedLevels;
    if Accepts(b, CancelOf(id, side, qty)) {
      var x := Located(OwnHalf(b, side), side.IsBid(), b.next, id);
      assert x in Bids(b) + Asks(b);
      RestingFound(b, x);
      assert Meant(x, id, side, qty);
    }
  }

  lemma {:induction false} RemovedAt(flat: seq<Resting>, r: Resting) returns (k: nat)
    requires Unique(flat) && r in flat
    ensures k < |flat| && flat[k] == r && RemoveFlat(flat, r.node.handle) == flat[..k] + flat[k + 1..]
  {
    var t := flat[1..];
    FirstOrBehind(flat, r);
    if flat[0] == r {
      k := 0;
      assert flat[..0] + t == t;
    } else {
      hide Unique;
      var j := RemovedAt(t, r);
      k := j + 1;
      DropBehind(flat, j);
    }
  }

  lemma DropBehind<T>(s: seq<T>, j: nat)
    requires j + 1 < |s|
    ensures [s[0]] + (s[1..][..j] + s[1..][j + 1..]) == s[..j + 1] + s[j + 2..]
  {
    assert s[1..][..j] == s[1..j + 1] && s[1..][j + 1..] == s[j + 2..];
    assert [s[0]] + s[1..j + 1] == s[..j + 1];
  }

  lemma FirstOrBehind(flat: seq<Resting>, r: Resting)
    requires Unique(flat) && r in flat
    ensures Unique(flat[1..])
    ensures flat[0] != r ==> r in flat[1..] && flat[0].node.handle != r.node.handle
  {
    IndexLocates(flat[1..]);
  }

  /** An order with this id rests, sent in with exactly this side. */
  ghost predicate RestsAs(b: State, id: OrderId, side: Side) {
    exists r :: r in Bids(b) + Asks(b) && r.node.order.orderId == id && r.node.order.side == side
  }

  /** The id maps find exactly the orders that rest, with the side they have. */
  lemma FoundIffRests(b: State, id: OrderId, side: Side)
    requires BookOk(b)
    ensures HasOn(b, id, side) && GetOrder(b, id).Some? && GetOrder(b, id).value.side == side <==> RestsAs(b, id, side)
  {
    hide Uncrossed, Unique, Deref, GetOrder, IndexOf, Flatten, AllLive, SortedLevels;
    if r :| r in Bids(b) + Asks(b) && r.node.order.orderId == id && r.node.order.side == side {
      RestingFound(b, r);
    }
    if HasOn(b, id, side) {
      var x := Located(OwnHalf(b, side), side.IsBid(), b.next, id);
      assert x in Bids(b) + Asks(b);
      RestingFound(b, x);
    }
  }

  // ---- The tick rule over runs ----

  /** No change of the price, or the last one went up. */
  ghost predicate Rises(s: seq<Price>) { forall i :: Tick.LastChange(s, i) ==> s[i] > s[i - 1] }

  /** The last change of the price went down. */
  ghost predicate Falls(s: seq<Price>) { exists i :: Tick.LastChange(s, i) && s[i] < s[i - 1] }

  lemma DirectionTells(d: Tick.Direction, s: seq<Price>)
    requires |s| > 0 && Tick.Means(d, s)
    ensures d in {Tick.PlusTick, Tick.ZeroPlusTick} <==> Rises(s)
    ensures d in {Tick.MinusTick, Tick.ZeroMinusTick} <==> Falls(s)
  {
    var n := |s|;
    if d.PlusTick? || d.MinusTick? {
      assert Tick.LastChange(s, n - 1);
    }
  }
}

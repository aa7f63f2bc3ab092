/** The book-keeping of single trades: who traded how much, for how much money, and at what average. */
module Ledger {
  import opened Core
  import opened Matching
  import opened MatchLemmas

  /** A trade between two submissions, each named by the number add gave it. */
  datatype Trade = Trade(maker: nat, taker: nat, price: Price, qty: Quantity)

  /** What is known of one submission: its terms and how far it got. */
  datatype Account = Account(side: Side, limit: Price, originalQty: Quantity, remainQty: Quantity, avgPrice: Price)
  {
    function CumQty(): Quantity { originalQty - remainQty }
  }

  datatype Books = Books(accounts: map<nat, Account>, trades: seq<Trade>)

  function AccountAt(o: Order, limit: Price): Account {
    Account(o.side, limit, o.originalQty, o.remainQty, o.avgPrice)
  }

  function Volume(trades: seq<Trade>, who: nat): Quantity {
    if trades == [] then 0.0
    else var t := trades[|trades| - 1];
         Volume(trades[..|trades| - 1], who) + if t.maker == who || t.taker == who then t.qty else 0.0
  }

  function Money(trades: seq<Trade>, who: nat): real {
    if trades == [] then 0.0
    else var t := trades[|trades| - 1];
         Money(trades[..|trades| - 1], who) + if t.maker == who || t.taker == who then t.qty * t.price else 0.0
  }

  function Traded(trades: seq<Trade>): Quantity {
    if trades == [] then 0.0 else Traded(trades[..|trades| - 1]) + trades[|trades| - 1].qty
  }

  function TradePrices(trades: seq<Trade>): seq<Price> {
    seq(|trades|, i requires 0 <= i < |trades| => trades[i].price)
  }

  /** The account of one submission tells the truth about its trades. */
  predicate Fair(a: Account, trades: seq<Trade>, who: nat) {
    && 0.0 <= a.remainQty <= a.originalQty
    && a.CumQty() == Volume(trades, who)
    && a.avgPrice * a.CumQty() == Money(trades, who)
    && (a.CumQty() > 0.0 ==> if a.side.IsBid() then a.avgPrice <= a.limit else a.avgPrice >= a.limit)
  }

  predicate AllFair(l: Books) { forall who :: who in l.accounts ==> Fair(l.accounts[who], l.trades, who) }

  // ---- One trade ----

  function Take(a: Account, f: Fill): Account {
    a.(remainQty := a.remainQty - f.qty, avgPrice := Blend(a.CumQty(), a.avgPrice, f.qty, f.price))
  }

  function PostOne(l: Books, f: Fill, taker: nat): Books
    requires taker in l.accounts
  {
    Books(l.accounts[f.before.handle := AccountAt(After(f).order, f.price)][taker := Take(l.accounts[taker], f)],
          l.trades + [Trade(f.before.handle, taker, f.price, f.qty)])
  }

  function PostAll(l: Books, fills: seq<Fill>, taker: nat): (r: Books)
    requires taker in l.accounts
    ensures taker in r.accounts && l.accounts.Keys <= r.accounts.Keys
    decreases |fills|
  {
    if fills == [] then l else PostAll(PostOne(l, fills[0], taker), fills[1..], taker)
  }

  lemma Append(trades: seq<Trade>, t: Trade, who: nat)
    ensures var both := trades + [t];
            && Volume(both, who) == Volume(trades, who) + (if t.maker == who || t.taker == who then t.qty else 0.0)
            && Money(both, who) == Money(trades, who) + (if t.maker == who || t.taker == who then t.qty * t.price else 0.0)
            && Traded(both) == Traded(trades) + t.qty
  {
    assert (trades + [t])[..|trades|] == trades;
  }

  /** Averaging prices within a limit stays within it. */
  lemma BlendWithin(side: Side, limit: Price, cum: Quantity, avg: Price, qty: Quantity, price: Price)
    requires cum >= 0.0 && qty > 0.0
    requires cum > 0.0 ==> Reaches(side, avg, limit)
    requires Reaches(side, price, limit)
    ensures Reaches(side, Blend(cum, avg, qty, price), limit)
  {
    hide Blend;
    var b := Blend(cum, avg, qty, price);
    BlendExact(cum, avg, qty, price);
    var p, q, r, s := cum * avg, qty * price, cum * limit, qty * limit;
    if side.IsBid() {
      MulMono(cum, avg, limit, p, r);
      MulMono(qty, price, limit, q, s);
      MeanBelow(b, limit, cum, qty, p, q, r, s);
    } else {
      MulMono(cum, limit, avg, r, p);
      MulMono(qty, limit, price, s, q);
      MeanAbove(b, limit, cum, qty, p, q, r, s);
    }
  }

  lemma MulMono(k: real, x: real, y: real, kx: real, ky: real)
    requires k >= 0.0 && (k > 0.0 ==> x <= y) && kx == k * x && ky == k * y
    ensures kx <= ky
  {
    if k == 0.0 {
      assert kx == 0.0 && ky == 0.0;
    } else {
      NotNegative(k, y - x);
      Distribute(k, x, y);
    }
  }

  lemma NotNegative(k: real, d: real)
    requires k >= 0.0 && d >= 0.0
    ensures k * d >= 0.0
  {
  }

  lemma Distribute(k: real, x: real, y: real)
    ensures k * (y - x) == k * y - k * x
  {
  }

  lemma CancelFactor(x: real, y: real, c: real)
    requires c > 0.0 && x * c <= y * c
    ensures x <= y
  {
  }

  lemma MeanBelow(b: real, limit: real, cum: real, qty: real, p: real, q: real, r: real, s: real)
    requires cum + qty > 0.0 && b * (cum + qty) == p + q && p <= r && q <= s
    requires r == cum * limit && s == qty * limit
    ensures b <= limit
  {
    assert limit * (cum + qty) == r + s;
    CancelFactor(b, limit, cum + qty);
  }

  lemma MeanAbove(b: real, limit: real, cum: real, qty: real, p: real, q: real, r: real, s: real)
    requires cum + qty > 0.0 && b * (cum + qty) == p + q && p >= r && q >= s
    requires r == cum * limit && s == qty * limit
    ensures b >= limit
  {
    assert limit * (cum + qty) == r + s;
    CancelFactor(limit, b, cum + qty);
  }

  /** One more fill within the limit keeps an account fair. */
  lemma FairAfter(a: Account, f: Fill, trades: seq<Trade>, t: Trade, who: nat)
    requires Fair(a, trades, who) && 0.0 < f.qty <= a.remainQty && Reaches(a.side, f.price, a.limit)
    requires t.price == f.price && t.qty == f.qty && (t.maker == who || t.taker == who)
    ensures Fair(Take(a, f), trades + [t], who)
  {
    Append(trades, t, who);
    BlendWithin(a.side, a.limit, a.CumQty(), a.avgPrice, f.qty, f.price);
    BlendExact(a.CumQty(), a.avgPrice, f.qty, f.price);
  }

  /** The fill meets the accounts of its two sides as they are. */
  predicate Postable(l: Books, f: Fill, taker: nat) {
    && taker in l.accounts && f.before.handle in l.accounts && f.before.handle != taker
    && GoodFill(f)
    && l.accounts[f.before.handle] == AccountAt(f.before.order, f.price)
    && f.qty <= l.accounts[taker].remainQty
    && Reaches(l.accounts[taker].side, f.price, l.accounts[taker].limit)
  }

  lemma PostOneFair(l: Books, f: Fill, taker: nat)
    requires AllFair(l) && Postable(l, f, taker)
    ensures AllFair(PostOne(l, f, taker))
  {
    hide Blend, Fair, Volume, Money;
    var t := Trade(f.before.handle, taker, f.price, f.qty);
    forall who | who in PostOne(l, f, taker).accounts
      ensures Fair(PostOne(l, f, taker).accounts[who], l.trades + [t], who)
    {
      if who == taker {
        FairAfter(l.accounts[taker], f, l.trades, t, taker);
      } else if who == f.before.handle {
        FairAfter(l.accounts[who], f, l.trades, t, who);
      } else {
        FairUntouched(l.accounts[who], l.trades, t, who);
      }
    }
  }

  lemma FairUntouched(a: Account, trades: seq<Trade>, t: Trade, who: nat)
    requires Fair(a, trades, who) && t.maker != who && t.taker != who
    ensures Fair(a, trades + [t], who)
  {
    Append(trades, t, who);
  }

  // ---- All trades of one order ----

  /** Each fill of the list will find its accounts as they are now; the makers are all different. */
  ghost predicate AllPostable(l: Books, fills: seq<Fill>, taker: nat) {
    && taker in l.accounts
    && Total(fills) <= l.accounts[taker].remainQty
    && (forall i, j :: 0 <= i < j < |fills| ==> fills[i].before.handle != fills[j].before.handle)
    && forall i :: 0 <= i < |fills| ==>
         && fills[i].before.handle in l.accounts && fills[i].before.handle != taker
         && GoodFill(fills[i])
         && l.accounts[fills[i].before.handle] == AccountAt(fills[i].before.order, fills[i].price)
         && Reaches(l.accounts[taker].side, fills[i].price, l.accounts[taker].limit)
  }

  lemma {:induction false} TotalPositive(fills: seq<Fill>)
    requires GoodFills(fills)
    ensures Total(fills) >= 0.0 && (fills != [] ==> Total(fills) > 0.0)
  {
    if fills != [] { assert fills[0] in fills; TotalPositive(fills[1..]); }
  }

  lemma PostableTail(l: Books, fills: seq<Fill>, taker: nat)
    requires fills != [] && AllPostable(l, fills, taker)
    ensures Postable(l, fills[0], taker)
    ensures AllPostable(PostOne(l, fills[0], taker), fills[1..], taker)
  {
    hide Blend, After;
    assert GoodFills(fills[1..]) by {
      forall f | f in fills[1..] ensures GoodFill(f) {
        var i :| 0 <= i < |fills[1..]| && fills[1..][i] == f;
        assert f == fills[i + 1];
      }
    }
    TotalPositive(fills[1..]);
    assert forall i :: 0 <= i < |fills[1..]| ==> fills[1..][i] == fills[i + 1];
  }

  lemma TotalTail(fills: seq<Fill>)
    ensures Total(fills) == if fills == [] then 0.0 else fills[0].qty + Total(fills[1..])
    ensures fills == [] ==> Prices(fills) == []
  {
  }

  lemma PricesTail(trades: seq<Trade>, t: Trade, fills: seq<Fill>)
    requires fills != []
    ensures TradePrices(trades + [t]) == TradePrices(trades) + [t.price]
    ensures Prices(fills) == [fills[0].price] + Prices(fills[1..])
  {
  }

  /** Posting all fills of an order keeps every account fair, trades what was filled, changes only the makers
      and the taker, and leaves each maker with the order as it is after its fill. */
  lemma {:induction false} PostAllFair(l: Books, fills: seq<Fill>, taker: nat)
    requires AllFair(l) && AllPostable(l, fills, taker)
    ensures var r := PostAll(l, fills, taker);
            && AllFair(r)
            && r.accounts.Keys == l.accounts.Keys
            && Traded(r.trades) == Traded(l.trades) + Total(fills)
            && TradePrices(r.trades) == TradePrices(l.trades) + Prices(fills)
            && (forall who :: who in l.accounts && who != taker && (forall f :: f in fills ==> f.before.handle != who)
                  ==> r.accounts[who] == l.accounts[who])
            && (forall f :: f in fills ==> r.accounts[f.before.handle] == AccountAt(After(f).order, f.price))
    decreases |fills|
  {
    hide AllFair, AccountAt, After, Volume, Money, Reaches, Traded, Take, Total, Prices, TradePrices, GoodFill;
    TotalTail(fills);
    if fills == [] {
      assert TradePrices(l.trades) + Prices(fills) == TradePrices(l.trades);
    } else {
      var f := fills[0];
      PostableTail(l, fills, taker);
      PostOneFair(l, f, taker);
      var next := PostOne(l, f, taker);
      PostAllFair(next, fills[1..], taker);
      Append(l.trades, Trade(f.before.handle, taker, f.price, f.qty), 0);
      PricesTail(l.trades, Trade(f.before.handle, taker, f.price, f.qty), fills);
      SeqAssoc(TradePrices(l.trades), [f.price], Prices(fills[1..]));
      assert forall g :: g in fills[1..] ==> g in fills && g.before.handle != f.before.handle;
    }
  }

  /** The taker's account after all its fills is the aggressor record the matching loop kept. */
  lemma {:induction false} TakerIsAggressor(l: Books, fills: seq<Fill>, taker: nat, main: Event)
    requires taker in l.accounts && l.accounts[taker].originalQty == main.order.originalQty
    requires l.accounts[taker].remainQty == main.order.remainQty && l.accounts[taker].avgPrice == main.order.avgPrice
    ensures var a, o := PostAll(l, fills, taker).accounts[taker], Aggress(main, fills).order;
            && a.side == l.accounts[taker].side && a.limit == l.accounts[taker].limit
            && a.originalQty == o.originalQty && a.remainQty == o.remainQty && a.avgPrice == o.avgPrice
    decreases |fills|
  {
    hide Blend;
    if fills != [] {
      TakerIsAggressor(PostOne(l, fills[0], taker), fills[1..], taker, AggressOne(main, fills[0]));
    }
  }
}

/** Every submission of a run from its request on: why it was taken, what its trades were, what of it still rests. */
module Submissions {
  import opened Core
  import opened Matching
  import opened MatchLemmas
  import opened Book
  import opened Index
  import opened Invariant
  import opened Ledger
  import opened Acceptance
  import opened History
  import Priority
  import Tick

  // ---- The trades of one order ----

  predicate SameTerms(a: Account, c: Account) {
    c.side == a.side && c.limit == a.limit && c.originalQty == a.originalQty
  }

  predicate KeepsTerms(l: Books, r: Books) {
    forall who :: who in l.accounts ==> who in r.accounts && SameTerms(l.accounts[who], r.accounts[who])
  }

  function TradesOf(fills: seq<Fill>, taker: nat): seq<Trade> {
    seq(|fills|, i requires 0 <= i < |fills| => Trade(fills[i].before.handle, taker, fills[i].price, fills[i].qty))
  }

  lemma PostOneTerms(l: Books, f: Fill, taker: nat)
    requires Postable(l, f, taker)
    ensures KeepsTerms(l, PostOne(l, f, taker))
  {
    hide Blend;
  }

  lemma TermsTrans(l: Books, r: Books, t: Books)
    requires KeepsTerms(l, r) && KeepsTerms(r, t)
    ensures KeepsTerms(l, t)
  {
  }

  /** Posting the trades of an order changes no terms and adds one trade a fill. */
  lemma {:induction false} PostAllTerms(l: Books, fills: seq<Fill>, taker: nat)
    requires AllPostable(l, fills, taker)
    ensures KeepsTerms(l, PostAll(l, fills, taker))
    ensures PostAll(l, fills, taker).trades == l.trades + TradesOf(fills, taker)
    decreases |fills|
  {
    hide Postable, GoodFill, KeepsTerms;
    if fills == [] {
      SameKeeps(l);
      assert l.trades + TradesOf(fills, taker) == l.trades;
    } else {
      PostableTail(l, fills, taker);
      hide AllPostable;
      var next := PostOne(l, fills[0], taker);
      PostOneTerms(l, fills[0], taker);
      PostAllTerms(next, fills[1..], taker);
      TermsTrans(l, next, PostAll(next, fills[1..], taker));
      TradesCons(fills, taker);
      SeqAssoc(l.trades, [TradesOf(fills, taker)[0]], TradesOf(fills[1..], taker));
    }
  }

  lemma SameKeeps(l: Books)
    ensures KeepsTerms(l, l)
  {
  }

  lemma TradesCons(fills: seq<Fill>, taker: nat)
    requires fills != []
    ensures TradesOf(fills, taker) ==
      [Trade(fills[0].before.handle, taker, fills[0].price, fills[0].qty)] + TradesOf(fills[1..], taker)
  {
  }

  /** What is true of every trade: it is of two submissions on different sides, the one that rested before the other
      came; the price is the limit of the one that rested, and no worse than the limit of the other. */
  predicate Meets(accounts: map<nat, Account>, t: Trade) {
    && t.maker in accounts && t.taker in accounts && t.maker < t.taker && t.qty > 0.0
    && t.price == accounts[t.maker].limit
    && (if accounts[t.taker].side in {Buy, BuyMinus} then
          accounts[t.maker].side in {Sell, SellPlus} && t.price <= accounts[t.taker].limit
        else
          && accounts[t.taker].side in {Sell, SellPlus} && accounts[t.maker].side in {Buy, BuyMinus}
          && t.price >= accounts[t.taker].limit)
  }

  ghost predicate AllMeet(l: Books) { forall i :: 0 <= i < |l.trades| ==> Meets(l.accounts, l.trades[i]) }

  lemma TermsMeet(l: Books, r: Books, t: Trade)
    requires KeepsTerms(l, r) && Meets(l.accounts, t)
    ensures Meets(r.accounts, t)
  {
  }

  /** The trades of an accepted order meet the accounts of its two sides. */
  lemma FillsMeet(m: Market, o: OrderInfo, front: seq<Resting>, back: seq<Resting>)
    requires Good(m) && WellFormed(New(o)) && EnteredAs(m.book, o, front, back)
    ensures var fills := SweepOf(m.book, o).fills; var l := Opened(m, o);
      && AllPostable(l, fills, m.book.next)
      && forall i :: 0 <= i < |fills| ==> Meets(l.accounts, TradesOf(fills, m.book.next)[i])
  {
    hide Match, SweepOf, AllFair, Conserved, Agrees, Unique, Handles, Uncrossed, Sound, Total;
    var l, next := Opened(m, o), m.book.next;
    var fills := SweepOf(m.book, o).fills;
    FillsPostable(m, o, front, back);
    MakersKnown(l, fills, next);
    MakersOpposite(m.book, o, front, back);
    forall i | 0 <= i < |fills| ensures Meets(l.accounts, TradesOf(fills, next)[i]) {
      assert fills[i] in fills;
    }
  }

  lemma MakersOpposite(b: State, o: OrderInfo, front: seq<Resting>, back: seq<Resting>)
    requires BookOk(b) && WellFormed(New(o)) && EnteredAs(b, o, front, back)
    ensures forall f :: f in SweepOf(b, o).fills ==>
      if o.order.side in {Buy, BuyMinus} then f.before.order.side in {Sell, SellPlus}
      else f.before.order.side in {Buy, BuyMinus}
  {
    hide Match, SweepOf, Uncrossed, Sound, Handles, IndexOf;
    UniqueAppend(front, back);
    FillsComeFrom(front, o.order.userId, o.order.remainQty);
    var fills := SweepOf(b, o).fills;
    forall f | f in fills
      ensures if o.order.side in {Buy, BuyMinus} then f.before.order.side in {Sell, SellPlus}
        else f.before.order.side in {Buy, BuyMinus}
    {
      var i :| 0 <= i < |fills| && fills[i] == f;
      assert From(fills[i], front);
      assert Resting(f.price, f.before) in front + back;
    }
  }

  // ---- One request ----

  /** What a request does to the ledger: terms stay, trades are only added, and every added trade meets its accounts. */
  lemma StepTerms(m: Market, r: Request)
    requires Good(m) && WellFormed(r) && AllMeet(m.ledger)
    ensures var t := Step(m, r);
      && KeepsTerms(m.ledger, t.ledger) && AllMeet(t.ledger)
      && m.ledger.trades <= t.ledger.trades
  {
    hide Good, Accepts, Exec, Posted, KeepsTerms, Meets;
    SameKeeps(m.ledger);
    if Accepts(m.book, r) && r.New? {
      NewTerms(m, r.info);
    }
  }

  lemma NewTerms(m: Market, o: OrderInfo)
    requires Good(m) && WellFormed(New(o)) && AllMeet(m.ledger)
    ensures KeepsTerms(m.ledger, Posted(m, o)) && AllMeet(Posted(m, o)) && m.ledger.trades <= Posted(m, o).trades
  {
    hide SweepOf, Meets, AllPostable, KeepsTerms, WellFormed, EnteredAs, PostAll, AllMeet, Good;
    var front, back := EnteredAt(m, o);
    var l, next := Opened(m, o), m.book.next;
    var fills := SweepOf(m.book, o).fills;
    OpenedKeeps(m, o);
    FillsMeet(m, o, front, back);
    PostAllTerms(l, fills, next);
    TermsTrans(m.ledger, l, Posted(m, o));
    MoreMeet(m.ledger, l, Posted(m, o), TradesOf(fills, next));
  }

  /** Trades that met their accounts do so still, and the new ones do. */
  lemma MoreMeet(l: Books, base: Books, r: Books, more: seq<Trade>)
    requires AllMeet(l) && KeepsTerms(l, r) && KeepsTerms(base, r) && r.trades == l.trades + more
    requires forall i :: 0 <= i < |more| ==> Meets(base.accounts, more[i])
    ensures AllMeet(r)
  {
    hide Meets, KeepsTerms;
    forall i | 0 <= i < |r.trades| ensures Meets(r.accounts, r.trades[i]) {
      if i < |l.trades| { TermsMeet(l, r, l.trades[i]); } else { TermsMeet(base, r, more[i - |l.trades|]); }
    }
  }

  lemma EnteredAt(m: Market, o: OrderInfo) returns (front: seq<Resting>, back: seq<Resting>)
    requires Good(m) && WellFormed(New(o))
    ensures EnteredAs(m.book, o, front, back)
  {
    hide BookOk, AllFair, Conserved, Match, SweepOf;
    front, back := SweepEffect(m.book, o);
  }

  lemma OpenedKeeps(m: Market, o: OrderInfo)
    requires Good(m)
    ensures KeepsTerms(m.ledger, Opened(m, o)) && Opened(m, o).trades == m.ledger.trades
  {
    hide BookOk, AllFair, Conserved, Agrees;
  }

  // ---- Over runs ----

  /** The trade prices of a run, from the zero the book starts with. */
  function Priced(rs: seq<Request>): seq<Price> { Tick.Seen(TradePrices(History.After(rs).ledger.trades)) }

  /** The request number i of a run was taken as submission who: no order with its id rested then, and for the sides
      with a tick rule the last change of the price until then went the right way. */
  ghost predicate TakenAt(rs: seq<Request>, i: nat, who: nat) {
    && i < |rs| && rs[i].New? && who == History.After(rs[..i]).book.next
    && !Rests(History.After(rs[..i]).book, rs[i].info.order.orderId)
    && (rs[i].info.order.side == BuyMinus ==> Rises(Priced(rs[..i])))
    && (rs[i].info.order.side == SellPlus ==> Falls(Priced(rs[..i])))
  }

  predicate OpenedWith(a: Account, o: OrderInfo) {
    a.side == o.order.side && a.limit == o.price && a.originalQty == o.order.originalQty
  }

  ghost predicate Justified(rs: seq<Request>, a: Account, who: nat) {
    exists i: nat :: i < |rs| && rs[i].New? && TakenAt(rs, i, who) && OpenedWith(a, rs[i].info)
  }

  lemma TakenLater(before: seq<Request>, r: Request, i: nat, who: nat)
    requires TakenAt(before, i, who)
    ensures TakenAt(before + [r], i, who) && (before + [r])[i] == before[i]
  {
    hide Rises, Falls, Rests;
    assert (before + [r])[..i] == before[..i];
  }

  lemma TakenNow(before: seq<Request>, o: OrderInfo)
    requires (forall r :: r in before ==> WellFormed(r)) && WellFormed(New(o))
    requires Accepts(History.After(before).book, New(o))
    ensures TakenAt(before + [New(o)], |before|, History.After(before).book.next)
  {
    hide Good, Rises, Falls, Rests, WellFormed, Priced, History.After, Accepts, Has;
    var m := History.After(before);
    RunGood(before);
    AcceptedNew(m.book, o);
    KnownHere(m, o.order.orderId);
    HistoryLets(before);
    assert (before + [New(o)])[..|before|] == before;
  }

  lemma AcceptedNew(b: State, o: OrderInfo)
    requires Accepts(b, New(o))
    ensures Lets(b.tick.direction, o.order.side) && !Has(b, o.order.orderId)
  {
  }

  /** The direction the market keeps tells what its trade prices say. */
  lemma HistoryLets(rs: seq<Request>)
    requires Good(History.After(rs))
    ensures var d := History.After(rs).book.tick.direction;
      && (d in {Tick.PlusTick, Tick.ZeroPlusTick} <==> Rises(Priced(rs)))
      && (d in {Tick.MinusTick, Tick.ZeroMinusTick} <==> Falls(Priced(rs)))
  {
    var m := History.After(rs);
    TickIs(m);
    hide Good, Rises, Falls, History.After, Tick.TradeAll, TradePrices;
    Tick.TickMeansLastChange(TradePrices(m.ledger.trades));
    DirectionTells(m.book.tick.direction, Priced(rs));
  }

  lemma TickIs(m: Market)
    requires Good(m)
    ensures m.book.tick == Tick.TradeAll(Tick.INITIAL, TradePrices(m.ledger.trades))
  {
    hide BookOk, AllFair, Conserved, Agrees;
  }

  lemma KnownHere(m: Market, id: OrderId)
    requires Good(m)
    ensures Has(m.book, id) <==> Rests(m.book, id)
  {
    hide BookOk, AllFair, Conserved, Agrees;
    KnownIffResting(m.book, id);
  }

  lemma StaysJustified(before: seq<Request>, r: Request, a: Account, c: Account, who: nat)
    requires Justified(before, a, who) && SameTerms(a, c)
    ensures Justified(before + [r], c, who)
  {
    hide TakenAt;
    var i: nat :| i < |before| && before[i].New? && TakenAt(before, i, who) && OpenedWith(a, before[i].info);
    TakenLater(before, r, i, who);
  }

  /** The ledger after one more request. */
  lemma LastStep(before: seq<Request>, r: Request)
    ensures History.After(before + [r]) == Step(History.After(before), r)
  {
    assert (before + [r])[..|before|] == before;
  }

  /** The accounts of a step: the old ones, and one for a new order that is taken. */
  lemma StepAccounts(m: Market, r: Request)
    requires Good(m) && WellFormed(r)
    ensures var t := Step(m, r);
      forall who :: who in t.ledger.accounts ==>
        who in m.ledger.accounts || (r.New? && Accepts(m.book, r) && who == m.book.next)
    ensures r.New? && Accepts(m.book, r) ==>
      m.book.next in Step(m, r).ledger.accounts && OpenedWith(Step(m, r).ledger.accounts[m.book.next], r.info)
  {
    if Accepts(m.book, r) && r.New? {
      var o := r.info;
      var front, back := EnteredAt(m, o);
      FillsMeet(m, o, front, back);
      PostAllTerms(Opened(m, o), SweepOf(m.book, o).fills, m.book.next);
      PostAllKeys(Opened(m, o), SweepOf(m.book, o).fills, m.book.next);
      assert m.book.next in Opened(m, o).accounts;
    }
    hide Good, SweepOf, AllPostable, PostAll, Meets;
  }

  lemma {:induction false} PostAllKeys(l: Books, fills: seq<Fill>, taker: nat)
    requires taker in l.accounts && forall i :: 0 <= i < |fills| ==> fills[i].before.handle in l.accounts
    ensures PostAll(l, fills, taker).accounts.Keys == l.accounts.Keys
    decreases |fills|
  {
    hide Blend, Matching.After;
    if fills != [] {
      assert forall i :: 0 <= i < |fills[1..]| ==> fills[1..][i] == fills[i + 1];
      assert PostOne(l, fills[0], taker).accounts.Keys == l.accounts.Keys;
      PostAllKeys(PostOne(l, fills[0], taker), fills[1..], taker);
    }
  }

  /** Over every run: each submission in the ledger was taken when no order with its id rested and the history of prices
      let its side trade, with the terms its request gave; and every trade ever made meets the terms of its two sides. */
  lemma {:induction false} RunTaken(rs: seq<Request>)
    requires forall r :: r in rs ==> WellFormed(r)
    ensures var l := History.After(rs).ledger;
      && (forall who :: who in l.accounts ==> Justified(rs, l.accounts[who], who))
      && AllMeet(l)
    decreases |rs|
  {
    hide Good, Justified, Meets, Step, WellFormed, SameTerms;
    if rs == [] {
      NothingYet();
    } else {
      var before, r := rs[..|rs| - 1], rs[|rs| - 1];
      assert rs == before + [r];
      RunTaken(before);
      RunGood(before);
      LastStep(before, r);
      var m := History.After(before);
      StepTerms(m, r);
      StepAccounts(m, r);
      forall who | who in Step(m, r).ledger.accounts ensures Justified(rs, Step(m, r).ledger.accounts[who], who) {
        if who in m.ledger.accounts {
          StaysJustified(before, r, m.ledger.accounts[who], Step(m, r).ledger.accounts[who], who);
        } else {
          TakenNow(before, r.info);
          NewJustified(before, r.info, Step(m, r).ledger.accounts[who]);
        }
      }
    }
  }

  lemma NothingYet()
    ensures History.After([]).ledger == Books(map[], [])
  {
  }

  lemma NewJustified(before: seq<Request>, o: OrderInfo, a: Account)
    requires TakenAt(before + [New(o)], |before|, History.After(before).book.next) && OpenedWith(a, o)
    ensures Justified(before + [New(o)], a, History.After(before).book.next)
  {
    hide TakenAt;
    assert (before + [New(o)])[|before|].info == o;
  }

  // ---- What rests ----

  /** An order as its request sent it in, but for what is left of it and at what average, and for its status, which
      tells whether anything was traded. */
  predicate RestOf(r: Resting, o: OrderInfo) {
    && r.price == o.price && 0.0 < r.node.order.remainQty <= o.order.originalQty
    && r.node.order == o.order.(
         remainQty := r.node.order.remainQty, avgPrice := r.node.order.avgPrice,
         status := if r.node.order.remainQty == o.order.originalQty then NewOrder else PartiallyFilled)
  }

  ghost predicate Sent(rs: seq<Request>, r: Resting) {
    exists i: nat :: i < |rs| && rs[i].New? && History.After(rs[..i]).book.next == r.node.handle && RestOf(r, rs[i].info)
  }

  lemma StaysSent(before: seq<Request>, last: Request, was: Resting, now: Resting)
    requires Sent(before, was) && now.node.handle == was.node.handle
    requires forall o :: RestOf(was, o) ==> RestOf(now, o)
    ensures Sent(before + [last], now)
  {
    hide RestOf;
    var rs := before + [last];
    var i: nat :| i < |before| && before[i].New? && History.After(before[..i]).book.next == was.node.handle
                  && RestOf(was, before[i].info);
    assert rs[..i] == before[..i] && rs[i] == before[i];
  }

  /** A fill that leaves something leaves the rest of the same order. */
  lemma RestAfter(f: Fill, o: OrderInfo)
    requires GoodFill(f) && f.qty < f.before.order.remainQty
    ensures RestOf(Resting(f.price, f.before), o) ==> RestOf(Resting(f.price, Matching.After(f)), o)
  {
    hide Blend;
  }

  /** The orders on the two sides after a new one: as they were, the rest of what was traded with, or the new one. */
  ghost predicate FromBook(b: State, o: OrderInfo, now: Resting) {
    || now in Bids(b) + Asks(b)
    || (exists f :: GoodFill(f) && f.qty < f.before.order.remainQty && Resting(f.price, f.before) in Bids(b) + Asks(b)
          && now == Resting(f.price, Matching.After(f)))
    || (now.node.handle == b.next && RestOf(now, o))
  }

  lemma AddLeaves(b: State, o: OrderInfo)
    requires BookOk(b) && WellFormed(New(o))
    ensures forall now :: now in Bids(Add(b, o)) + Asks(Add(b, o)) ==> FromBook(b, o, now)
  {
    hide Match, SweepOf, Add, Uncrossed, Unique, Sound, InsertFlat, Handles, IndexOf, Leftover, Matching.After;
    var side := o.order.side;
    var front, back := AddEffect(b, o);
    OppositeLeaves(b, o, front, back);
    OwnLeaves(b, o, front, back);
    forall now | now in Bids(Add(b, o)) + Asks(Add(b, o)) ensures FromBook(b, o, now) {
      assert now in FlatOpposite(Add(b, o), side) || now in FlatOwn(Add(b, o), side);
    }
  }

  lemma OppositeLeaves(b: State, o: OrderInfo, front: seq<Resting>, back: seq<Resting>)
    requires BookOk(b) && WellFormed(New(o)) && AddedAs(b, o, front, back)
    ensures forall now :: now in FlatOpposite(Add(b, o), o.order.side) ==> FromBook(b, o, now)
  {
    hide SweepOf, Add, Uncrossed, InsertFlat, Leftover, Matching.After, Match, IndexOf, Handles, RestOf;
    var user, want := o.order.userId, o.order.remainQty;
    var p := Match(front, user, want);
    OppositeOk(b, o.order.side);
    UniqueAppend(front, back);
    BackUntouched(front, back, user, want);
    FillsComeFrom(front, user, want);
    forall now | now in p.kept + back ensures FromBook(b, o, now) {
      if now in back {
        assert now in front + back;
      } else if now !in front + back {
        var f :| f in p.fills && now == Resting(f.price, Matching.After(f));
        AfterLeft(f);
        var i :| 0 <= i < |p.fills| && p.fills[i] == f;
        assert From(p.fills[i], front);
        assert Resting(f.price, f.before) in front + back;
      }
    }
  }

  lemma AfterLeft(f: Fill)
    ensures Matching.After(f).order.remainQty == f.before.order.remainQty - f.qty
  {
  }

  lemma OwnLeaves(b: State, o: OrderInfo, front: seq<Resting>, back: seq<Resting>)
    requires BookOk(b) && WellFormed(New(o)) && AddedAs(b, o, front, back)
    ensures forall now :: now in FlatOwn(Add(b, o), o.order.side) ==> FromBook(b, o, now)
  {
    hide SweepOf, Add, BookOk, InsertFlat, Match, IndexOf, Handles, Matching.After, Aggress;
    var fills := Match(front, o.order.userId, o.order.remainQty).fills;
    Priority.AggressAccount(Event(NewOrder, 0.0, 0.0, o.order), fills);
    TotalPositive(fills);
    var rested := Resting(o.price, Node(b.next, Leftover(o, fills)));
    if Leftover(o, fills).remainQty != 0.0 {
      assert RestOf(rested, o);
      InsertMembers(FlatOwn(b, o.order.side), o.order.side.IsBid(), rested);
    }
    hide RestOf, Leftover;
  }

  /** Over every run: each resting order is what is left of a submission, at the price and with everything else its
      request gave, and its status says whether some of it was traded. */
  lemma {:induction false} RunRests(rs: seq<Request>)
    requires forall r :: r in rs ==> WellFormed(r)
    ensures var b := Run(EMPTY, rs); forall r :: r in Bids(b) + Asks(b) ==> Sent(rs, r)
    decreases |rs|
  {
    hide Good, Sent, Step, WellFormed, Exec, EMPTY, BookOk;
    if rs == [] {
      NothingRests();
    } else {
      var before, last := rs[..|rs| - 1], rs[|rs| - 1];
      assert rs == before + [last];
      RunRests(before);
      RunGood(before);
      RunKeeps(before);
      var b := Run(EMPTY, before);
      ExecLeaves(b, last);
      forall r | r in Bids(Exec(b, last)) + Asks(Exec(b, last)) ensures Sent(rs, r) {
        SentStep(before, last, r);
      }
    }
  }

  lemma NothingRests()
    ensures Run(EMPTY, []) == EMPTY && Bids(EMPTY) + Asks(EMPTY) == []
  {
  }

  /** Where the orders come from that rest after a request. */
  ghost predicate FromStep(b: State, last: Request, r: Resting) {
    r in Bids(b) + Asks(b) || (last.New? && FromBook(b, last.info, r))
  }

  lemma ExecLeaves(b: State, last: Request)
    requires BookOk(b) && WellFormed(last)
    ensures forall r :: r in Bids(Exec(b, last)) + Asks(Exec(b, last)) ==> FromStep(b, last, r)
  {
    hide BookOk, Add, Cancel, Accepts, FromBook;
    ExecIfAccepted(b, last);
    if Accepts(b, last) {
      match last
      case New(o) => AddLeaves(b, o);
      case CancelOf(id, side, qty) => CancelLeaves(b, id, side, qty);
    }
  }

  lemma CancelLeaves(b: State, id: OrderId, side: Side, qty: Quantity)
    requires BookOk(b) && Accepts(b, CancelOf(id, side, qty))
    ensures forall r :: r in Bids(Cancel(b, id, side)) + Asks(Cancel(b, id, side)) ==> r in Bids(b) + Asks(b)
  {
    hide Uncrossed, Unique, Deref, Erase, GetOrder, IndexOf, Flatten;
    var x := Located(OwnHalf(b, side), side.IsBid(), b.next, id);
    assert x in FlatOwn(b, side);
    CancelFlat(b, side, x);
  }

  lemma SentStep(before: seq<Request>, last: Request, r: Resting)
    requires forall q :: q in before ==> WellFormed(q)
    requires var b := Run(EMPTY, before); FromStep(b, last, r) && forall x :: x in Bids(b) + Asks(b) ==> Sent(before, x)
    ensures Sent(before + [last], r)
  {
    hide Sent, RestOf, Matching.After, WellFormed, Good;
    var b := Run(EMPTY, before);
    RunGood(before);
    if r in Bids(b) + Asks(b) {
      StaysSent(before, last, r, r);
    } else if f :| GoodFill(f) && f.qty < f.before.order.remainQty
                   && Resting(f.price, f.before) in Bids(b) + Asks(b) && r == Resting(f.price, Matching.After(f)) {
      AfterHandle(f);
      forall o ensures RestOf(Resting(f.price, f.before), o) ==> RestOf(r, o) { RestAfter(f, o); }
      StaysSent(before, last, Resting(f.price, f.before), r);
    } else {
      SentNow(before, last, r);
    }
  }

  lemma SentNow(before: seq<Request>, last: Request, r: Resting)
    requires last.New? && r.node.handle == History.After(before).book.next && RestOf(r, last.info)
    ensures Sent(before + [last], r)
  {
    hide RestOf;
    var rs := before + [last];
    assert rs[..|before|] == before && rs[|before|] == last;
  }
}

/** Whole runs of the market: every submission's account, the trades, and where all quantity went. */
module History {
  import opened Core
  import opened Matching
  import opened MatchLemmas
  import opened Book
  import opened Index
  import opened Invariant
  import opened Ledger
  import Priority
  import Tick

  /** A market with everything that ever happened to it. The quantities are per side, bids first. */
  datatype Market = Market(book: State, ledger: Books, submitted: (real, real), cancelled: (real, real))

  const OPENING := Market(EMPTY, Books(map[], []), (0.0, 0.0), (0.0, 0.0))

  function Plus(q: (real, real), bid: bool, x: real): (real, real) {
    if bid then (q.0 + x, q.1) else (q.0, q.1 + x)
  }

  /** The ledger with an account opened for a new order. */
  function Opened(m: Market, o: OrderInfo): Books {
    m.ledger.(accounts := m.ledger.accounts[m.book.next := AccountAt(o.order, o.price)])
  }

  /** The ledger after an accepted new order, its trades posted. */
  function Posted(m: Market, o: OrderInfo): Books {
    PostAll(Opened(m, o), SweepOf(m.book, o).fills, m.book.next)
  }

  function Step(m: Market, r: Request): Market {
    if !Accepts(m.book, r) then m
    else
      match r
      case New(o) =>
        Market(Exec(m.book, r), Posted(m, o), Plus(m.submitted, o.order.side.IsBid(), o.order.originalQty), m.cancelled)
      case CancelOf(id, side, qty) =>
        m.(book := Exec(m.book, r), cancelled := Plus(m.cancelled, side.IsBid(), qty))
  }

  function After(rs: seq<Request>): Market {
    if rs == [] then OPENING else Step(After(rs[..|rs| - 1]), rs[|rs| - 1])
  }

  // ---- The invariant of all runs ----

  /** Every resting order's account shows it as it is. */
  ghost predicate Agrees(flat: seq<Resting>, accounts: map<nat, Account>) {
    forall r :: r in flat ==>
      r.node.handle in accounts && accounts[r.node.handle] == AccountAt(r.node.order, r.price)
  }

  /** Accounts exist for exactly the submissions so far. */
  ghost predicate Numbered(accounts: map<nat, Account>, next: nat) { forall who: nat :: who in accounts <==> who < next }

  predicate Known(trades: seq<Trade>, next: nat) { forall t :: t in trades ==> t.maker < next && t.taker < next }

  /** On each side: what came in is resting, traded or cancelled. Both sides traded the same. */
  predicate Conserved(m: Market) {
    && m.submitted.0 == SumRemain(Bids(m.book)) + Traded(m.ledger.trades) + m.cancelled.0
    && m.submitted.1 == SumRemain(Asks(m.book)) + Traded(m.ledger.trades) + m.cancelled.1
  }

  ghost predicate Good(m: Market) {
    && BookOk(m.book)
    && Numbered(m.ledger.accounts, m.book.next)
    && Agrees(Bids(m.book), m.ledger.accounts) && Agrees(Asks(m.book), m.ledger.accounts)
    && AllFair(m.ledger)
    && Known(m.ledger.trades, m.book.next)
    && Conserved(m)
    && m.book.tick == Tick.TradeAll(Tick.INITIAL, TradePrices(m.ledger.trades))
  }

  // ---- A new order ----

  /** The orders the sweep trades with are resting, each once, so their accounts are as the sweep finds them. */
  lemma FillsPostable(m: Market, o: OrderInfo, front: seq<Resting>, back: seq<Resting>)
    requires Good(m) && WellFormed(New(o)) && EnteredAs(m.book, o, front, back)
    ensures AllPostable(Opened(m, o), Match(front, o.order.userId, o.order.remainQty).fills, m.book.next)
  {
    hide Match, BookOk, AllFair, Conserved, SweepOf, Agrees, From, Total, GoodFill, Known, Handles, Unique;
    var user, want := o.order.userId, o.order.remainQty;
    var fills := Match(front, user, want).fills;
    OppositeOk(m.book, o.order.side);
    UniqueAppend(front, back);
    FillsComeFrom(front, user, want);
    forall i | 0 <= i < |fills|
      ensures fills[i].before.handle in m.ledger.accounts && fills[i].before.handle != m.book.next
      ensures m.ledger.accounts[fills[i].before.handle] == AccountAt(fills[i].before.order, fills[i].price)
      ensures Reaches(o.order.side, fills[i].price, o.price)
    {
      assert From(fills[i], front);
      FillMeetsAccount(m, o, front, back, fills[i]);
    }
  }

  /** One order of the front, as its account has it. */
  lemma FillMeetsAccount(m: Market, o: OrderInfo, front: seq<Resting>, back: seq<Resting>, f: Fill)
    requires FlatOpposite(m.book, o.order.side) == front + back && From(f, front)
    requires forall r :: r in front ==> Reaches(o.order.side, r.price, o.price)
    requires Agrees(Bids(m.book), m.ledger.accounts) && Agrees(Asks(m.book), m.ledger.accounts)
    requires Numbered(m.ledger.accounts, m.book.next)
    ensures f.before.handle in m.ledger.accounts && f.before.handle != m.book.next
    ensures m.ledger.accounts[f.before.handle] == AccountAt(f.before.order, f.price)
    ensures Reaches(o.order.side, f.price, o.price)
  {
    hide Handles;
    var r := Resting(f.price, f.before);
    assert r in front + back;
    assert r in FlatOpposite(m.book, o.order.side);
  }

  /** A fill trades with an order that rests in the list. */
  predicate From(f: Fill, flat: seq<Resting>) { Resting(f.price, f.before) in flat && f.before.handle in Handles(flat) }

  predicate DifferentMakers(fills: seq<Fill>) {
    forall i, j :: 0 <= i < j < |fills| ==> fills[i].before.handle != fills[j].before.handle
  }

  /** Every fill of a pass is of a different resting order. */
  lemma {:induction false} FillsComeFrom(front: seq<Resting>, user: UserId, want: Quantity)
    requires Unique(front)
    ensures var fills := Match(front, user, want).fills;
            (forall i :: 0 <= i < |fills| ==> From(fills[i], front)) && DifferentMakers(fills)
    decreases |front|
  {
    hide MatchOne;
    if front != [] && want != 0.0 {
      var h := MatchOne(front[0], user, want);
      FillsComeFrom(front[1..], user, want - Total(h.fills));
      MatchOneFrom(front[0], user, want);
      MakersInFront(front, h.fills, Match(front[1..], user, want - Total(h.fills)).fills);
    }
  }

  lemma MatchOneFrom(r: Resting, user: UserId, want: Quantity)
    ensures var h := MatchOne(r, user, want);
            |h.fills| <= 1 && forall f :: f in h.fills ==> f.before == r.node && f.price == r.price
  {
    hide Remainder;
  }

  lemma MakersInFront(front: seq<Resting>, h: seq<Fill>, t: seq<Fill>)
    requires front != [] && Unique(front) && DifferentMakers(t)
    requires |h| <= 1 && forall f :: f in h ==> f.before == front[0].node && f.price == front[0].price
    requires forall i :: 0 <= i < |t| ==> From(t[i], front[1..])
    ensures (forall i :: 0 <= i < |h + t| ==> From((h + t)[i], front)) && DifferentMakers(h + t)
  {
    forall i | 0 <= i < |h + t| ensures From((h + t)[i], front) {
      if i >= |h| { assert From(t[i - |h|], front[1..]); } else { assert h[i] in h; }
    }
    forall i, j | 0 <= i < j < |h + t| ensures (h + t)[i].before.handle != (h + t)[j].before.handle {
      assert From(t[j - |h|], front[1..]);
      if i < |h| { assert h[i] in h; }
    }
  }

  lemma {:induction false} NobodyYet(trades: seq<Trade>, next: nat)
    requires Known(trades, next)
    ensures Volume(trades, next) == 0.0 && Money(trades, next) == 0.0
  {
    if trades != [] {
      assert trades[|trades| - 1] in trades;
      NobodyYet(trades[..|trades| - 1], next);
    }
  }

  lemma OpenedFair(m: Market, o: OrderInfo)
    requires Good(m) && WellFormed(New(o))
    ensures AllFair(Opened(m, o))
  {
    hide BookOk, Agrees, Conserved;
    NobodyYet(m.ledger.trades, m.book.next);
  }

  /** What the pass keeps is either an untouched order or one of its own partial fills. */
  ghost predicate KeptOrMade(front: seq<Resting>, fills: seq<Fill>, r: Resting) {
    || (exists f :: f in fills && r == Resting(f.price, Matching.After(f)))
    || (r in front && forall f :: f in fills ==> f.before.handle != r.node.handle)
  }

  lemma {:induction false} KeptIsKeptOrMade(front: seq<Resting>, user: UserId, want: Quantity)
    requires Unique(front)
    ensures var m := Match(front, user, want); forall r :: r in m.kept ==> KeptOrMade(front, m.fills, r)
    decreases |front|
  {
    hide MatchOne, Matching.After, Total, Handles, Ids;
    if front != [] && want != 0.0 {
      var h := MatchOne(front[0], user, want);
      var left := want - Total(h.fills);
      var t := Match(front[1..], user, left);
      KeptIsKeptOrMade(front[1..], user, left);
      FillsComeFrom(front[1..], user, left);
      IndexLocates(front[1..]);
      MatchOneFrom(front[0], user, want);
      MatchOneMakes(front[0], user, want);
      forall r | r in h.kept + t.kept ensures KeptOrMade(front, h.fills + t.fills, r) {
        if r in t.kept {
          KeptBehind(front, h.fills, t.fills, r);
        } else {
          KeptAhead(front, h.fills, t.fills, r);
        }
      }
    }
  }

  lemma KeptBehind(front: seq<Resting>, h: seq<Fill>, t: seq<Fill>, r: Resting)
    requires front != [] && KeptOrMade(front[1..], t, r)
    requires forall f :: f in h ==> f.before.handle == front[0].node.handle
    requires front[0].node.handle !in Handles(front[1..])
    requires forall x :: x in front[1..] ==> x.node.handle in Handles(front[1..])
    ensures KeptOrMade(front, h + t, r)
  {
    hide Matching.After, Handles;
  }

  lemma KeptAhead(front: seq<Resting>, h: seq<Fill>, t: seq<Fill>, r: Resting)
    requires front != [] && front[0].node.handle !in Handles(front[1..])
    requires forall i :: 0 <= i < |t| ==> From(t[i], front[1..])
    requires (h == [] && r == front[0]) || (|h| == 1 && r == Resting(h[0].price, Matching.After(h[0])))
    ensures KeptOrMade(front, h + t, r)
  {
    hide Matching.After, Handles;
    if h == [] {
      forall f | f in h + t ensures f.before.handle != r.node.handle {
        var i :| 0 <= i < |t| && t[i] == f;
        assert From(t[i], front[1..]);
      }
    } else {
      assert h[0] in h + t;
    }
  }

  lemma MatchOneMakes(r: Resting, user: UserId, want: Quantity)
    ensures forall f :: f in MatchOne(r, user, want).fills ==> f.before.handle == r.node.handle
    ensures var h := MatchOne(r, user, want);
            forall x :: x in h.kept ==>
              || (h.fills == [] && x == r)
              || (|h.fills| == 1 && x == Resting(h.fills[0].price, Matching.After(h.fills[0])))
  {
    hide Matching.After;
  }

  /** The makers are on the opposite side; the fills are those of the sweep. */
  lemma FillsOf(b: State, o: OrderInfo, front: seq<Resting>, back: seq<Resting>)
    requires BookOk(b) && WellFormed(New(o)) && EnteredAs(b, o, front, back)
    ensures SweepOf(b, o).fills == Match(front, o.order.userId, o.order.remainQty).fills
    ensures forall f :: f in SweepOf(b, o).fills ==> f.before.handle in Handles(FlatOpposite(b, o.order.side))
  {
    hide Match, SweepOf, Uncrossed;
    UniqueAppend(front, back);
    FillsComeFrom(front, o.order.userId, o.order.remainQty);
    var fills := SweepOf(b, o).fills;
    forall f | f in fills ensures f.before.handle in Handles(FlatOpposite(b, o.order.side)) {
      var i :| 0 <= i < |fills| && fills[i] == f;
      assert From(fills[i], front);
    }
  }

  lemma AggressSide(o: OrderInfo, fills: seq<Fill>)
    requires GoodFills(fills) && o.order.CumQty() >= 0.0
    ensures var left := Leftover(o, fills);
            left.side == o.order.side && left.originalQty == o.order.originalQty
            && left.remainQty == o.order.remainQty - Total(fills)
  {
    Priority.AggressAccount(Event(NewOrder, 0.0, 0.0, o.order), fills);
  }

  lemma {:induction false} PostedKnown(l: Books, fills: seq<Fill>, taker: nat)
    requires taker in l.accounts && Known(l.trades, taker + 1)
    requires forall i :: 0 <= i < |fills| ==> fills[i].before.handle < taker
    ensures Known(PostAll(l, fills, taker).trades, taker + 1)
    decreases |fills|
  {
    hide Matching.After, Blend;
    if fills != [] { PostedKnown(PostOne(l, fills[0], taker), fills[1..], taker); }
  }

  /** What posting a new order's trades does to the ledger. */
  ghost predicate PostedAs(m: Market, o: OrderInfo, fills: seq<Fill>, l: Books) {
    && AllFair(l) && Known(l.trades, m.book.next + 1) && Numbered(l.accounts, m.book.next + 1)
    && Traded(l.trades) == Traded(m.ledger.trades) + Total(fills)
    && TradePrices(l.trades) == TradePrices(m.ledger.trades) + Prices(fills)
    && (forall who: nat :: who < m.book.next && (forall f :: f in fills ==> f.before.handle != who)
          ==> who in m.ledger.accounts && who in l.accounts && l.accounts[who] == m.ledger.accounts[who])
    && (forall f :: f in fills ==>
          f.before.handle in l.accounts && l.accounts[f.before.handle] == AccountAt(Matching.After(f).order, f.price))
    && m.book.next in l.accounts && l.accounts[m.book.next] == AccountAt(Leftover(o, fills), o.price)
  }

  lemma PostEffect(m: Market, o: OrderInfo, front: seq<Resting>, back: seq<Resting>)
    requires Good(m) && WellFormed(New(o)) && EnteredAs(m.book, o, front, back)
    ensures PostedAs(m, o, Match(front, o.order.userId, o.order.remainQty).fills, Posted(m, o))
  {
    hide Match, BookOk, SweepOf, PostAll, AllFair, Conserved, Matching.After, Agrees, Aggress, AllPostable, Traded, Total,
         TradePrices, Prices, GoodFill, AllLive, SumRemain, Flatten;
    var fills := Match(front, o.order.userId, o.order.remainQty).fills;
    FillsOf(m.book, o, front, back);
    FillsPostable(m, o, front, back);
    MakersKnown(Opened(m, o), fills, m.book.next);
    OpenedFair(m, o);
    PostAllFair(Opened(m, o), fills, m.book.next);
    PostedKnown(Opened(m, o), fills, m.book.next);
    TakerIsAggressor(Opened(m, o), fills, m.book.next, Event(NewOrder, 0.0, 0.0, o.order));
    AggressSide(o, fills);
  }

  lemma MakersKnown(l: Books, fills: seq<Fill>, taker: nat)
    requires AllPostable(l, fills, taker) && Numbered(l.accounts, taker + 1)
    ensures forall i :: 0 <= i < |fills| ==> fills[i].before.handle < taker
    ensures forall f :: f in fills ==> f.before.handle in l.accounts
  {
  }

  /** No fill of a pass touches an order behind what the pass went through. */
  lemma BackUntouched(front: seq<Resting>, back: seq<Resting>, user: UserId, want: Quantity)
    requires Unique(front + back)
    ensures var p := Match(front, user, want);
      && (forall r, f :: r in back && f in p.fills ==> f.before.handle != r.node.handle)
      && (forall r :: r in p.kept + back ==>
            || (exists f :: f in p.fills && r == Resting(f.price, Matching.After(f)))
            || (r in front + back && forall f :: f in p.fills ==> f.before.handle != r.node.handle))
  {
    hide Match, Matching.After;
    var p := Match(front, user, want);
    UniqueAppend(front, back);
    FillsComeFrom(front, user, want);
    KeptIsKeptOrMade(front, user, want);
    IndexLocates(back);
    forall r, f | r in back && f in p.fills ensures f.before.handle != r.node.handle {
      var i :| 0 <= i < |p.fills| && p.fills[i] == f;
      assert From(p.fills[i], front);
    }
    forall r | r in p.kept
      ensures (exists f :: f in p.fills && r == Resting(f.price, Matching.After(f)))
           || (r in front + back && forall f :: f in p.fills ==> f.before.handle != r.node.handle)
    {
      assert KeptOrMade(front, p.fills, r);
    }
  }

  /** The accounts after posting still show the opposite side as it is. */
  lemma OppositeAgrees(m: Market, o: OrderInfo, front: seq<Resting>, back: seq<Resting>, l: Books)
    requires var fills := Match(front, o.order.userId, o.order.remainQty).fills; PostedAs(m, o, fills, l)
    requires Unique(front + back) && Agrees(front + back, m.ledger.accounts)
    requires forall r :: r in front + back ==> r.node.handle < m.book.next
    ensures Agrees(Match(front, o.order.userId, o.order.remainQty).kept + back, l.accounts)
  {
    hide Match, AllFair, Matching.After, Unique, Traded, Prices, Leftover, Known, Numbered;
    var p := Match(front, o.order.userId, o.order.remainQty);
    BackUntouched(front, back, o.order.userId, o.order.remainQty);
    forall r | r in p.kept + back
      ensures r.node.handle in l.accounts && l.accounts[r.node.handle] == AccountAt(r.node.order, r.price)
    {
      if f :| f in p.fills && r == Resting(f.price, Matching.After(f)) {
        AfterHandle(f);
      }
    }
  }

  lemma AfterHandle(f: Fill)
    ensures Matching.After(f).handle == f.before.handle
  {
  }

  /** The own side: nothing on it was traded with, and what rests of the order is what its account says. */
  lemma OwnAgrees(m: Market, o: OrderInfo, fills: seq<Fill>, own: seq<Resting>, l: Books)
    requires PostedAs(m, o, fills, l)
    requires Unique(own) && Agrees(own, m.ledger.accounts)
    requires forall r :: r in own ==> r.node.handle < m.book.next
    requires forall f, r :: f in fills && r in own ==> f.before.handle != r.node.handle
    ensures Agrees(own, l.accounts)
    ensures Agrees(InsertFlat(own, o.order.side.IsBid(), Resting(o.price, Node(m.book.next, Leftover(o, fills)))), l.accounts)
  {
    hide AllFair, Matching.After, Unique, Traded, Prices, Leftover, InsertFlat, Known, Numbered;
    InsertMembers(own, o.order.side.IsBid(), Resting(o.price, Node(m.book.next, Leftover(o, fills))));
  }

  lemma OldHandles(flat: seq<Resting>, bid: bool, next: nat)
    requires FlatOk(flat, bid, next)
    ensures forall r :: r in flat ==> r.node.handle < next && r.node.handle in Handles(flat)
  {
    hide Handles;
    IndexLocates(flat);
  }

  lemma BothAgree(m: Market, o: OrderInfo, front: seq<Resting>, back: seq<Resting>)
    requires Good(m) && WellFormed(New(o)) && AddedAs(m.book, o, front, back)
    requires PostedAs(m, o, Match(front, o.order.userId, o.order.remainQty).fills, Posted(m, o))
    ensures Agrees(Bids(Add(m.book, o)), Posted(m, o).accounts) && Agrees(Asks(Add(m.book, o)), Posted(m, o).accounts)
  {
    hide Match, SweepOf, AllFair, Conserved, Unique, Uncrossed, Add, Sound, Handles, InsertFlat, Agrees, PostedAs,
         Leftover, Posted;
    var side := o.order.side;
    var fills := Match(front, o.order.userId, o.order.remainQty).fills;
    OldHandles(FlatOpposite(m.book, side), !side.IsBid(), m.book.next);
    OldHandles(FlatOwn(m.book, side), side.IsBid(), m.book.next);
    FillsOf(m.book, o, front, back);
    OppositeAgrees(m, o, front, back, Posted(m, o));
    OwnAgrees(m, o, fills, FlatOwn(m.book, side), Posted(m, o));
  }

  lemma AddConserves(m: Market, o: OrderInfo, front: seq<Resting>, back: seq<Resting>)
    requires Good(m) && WellFormed(New(o)) && !Has(m.book, o.order.orderId) && AddedAs(m.book, o, front, back)
    ensures var side := o.order.side;
            var total := Total(SweepOf(m.book, o).fills);
            && SumRemain(FlatOpposite(Add(m.book, o), side)) == SumRemain(FlatOpposite(m.book, side)) - total
            && SumRemain(FlatOwn(Add(m.book, o), side))
               == SumRemain(FlatOwn(m.book, side)) + o.order.originalQty - total
  {
    hide Match, SweepOf, AllFair, Conserved, Agrees, Unique, Aggress, InsertFlat, Uncrossed, Add;
    var p := Match(front, o.order.userId, o.order.remainQty);
    SumRemainAppend(front, back);
    SumRemainAppend(p.kept, back);
    AggressSide(o, p.fills);
    var left := Leftover(o, p.fills);
    var rested := Resting(o.price, Node(m.book.next, left));
    InsertSum(FlatOwn(m.book, o.order.side), o.order.side.IsBid(), rested);
  }

  lemma AddGood(m: Market, o: OrderInfo)
    requires Good(m) && WellFormed(New(o)) && Accepts(m.book, New(o))
    ensures Good(Step(m, New(o)))
  {
    hide SweepOf, Posted, AllFair, Add, BookOk, Match, SumRemain, Agrees, AddedAs, Traded, Tick.TradeAll, Known, Numbered;
    var front, back := AddEffect(m.book, o);
    AddedEntered(m.book, o, front, back);
    var fills := Match(front, o.order.userId, o.order.remainQty).fills;
    AddKeeps(m.book, o);
    PostEffect(m, o, front, back);
    BothAgree(m, o, front, back);
    AddConserves(m, o, front, back);
    Tick.TradeAllAppend(Tick.INITIAL, TradePrices(m.ledger.trades), Prices(fills));
    AddRest(m.book, o);
  }

  lemma AddedEntered(b: State, o: OrderInfo, front: seq<Resting>, back: seq<Resting>)
    requires AddedAs(b, o, front, back)
    ensures EnteredAs(b, o, front, back)
    ensures SweepOf(b, o).fills == Match(front, o.order.userId, o.order.remainQty).fills
  {
  }

  lemma AddRest(b: State, o: OrderInfo)
    ensures Add(b, o).next == b.next + 1
    ensures Add(b, o).tick == Tick.TradeAll(b.tick, Prices(SweepOf(b, o).fills))
    ensures Add(b, o).events == b.events + Reports(SweepOf(b, o).fills) + TakerReport(o, SweepOf(b, o))
  {
    hide SweepOf, AddOwn, Tick.TradeAll, Reports, TakerReport, Gone, Prices;
  }

  lemma CancelGood(m: Market, r: Request)
    requires Good(m) && r.CancelOf? && Accepts(m.book, r)
    ensures Good(Step(m, r))
  {
    hide AllFair, Uncrossed, Unique, HalfOk, Deref, Handles, Erase, SumRemain;
    var h := OwnHalf(m.book, r.side);
    CancelKeeps(m.book, r.id, r.side);
    var x := Located(h, r.side.IsBid(), m.book.next, r.id);
    CancelFlat(m.book, r.side, x);
  }

  lemma CancelFlat(b: State, side: Side, x: Resting)
    requires BookOk(b) && side.Supported() && x in FlatOwn(b, side)
    ensures var id := x.node.order.orderId;
            && id in OwnHalf(b, side).ids
            && GetOrder(b, id) == Some(x.node.order)
            && SumRemain(FlatOwn(Cancel(b, id, side), side)) == SumRemain(FlatOwn(b, side)) - x.node.order.remainQty
            && FlatOpposite(Cancel(b, id, side), side) == FlatOpposite(b, side)
            && forall y :: y in FlatOwn(Cancel(b, id, side), side) ==> y in FlatOwn(b, side)
  {
    hide Uncrossed, Unique, Deref, Erase, SumRemain, IndexOf;
    var id := x.node.order.orderId;
    assert x in Bids(b) + Asks(b);
    RestingFound(b, x);
    IndexLocates(FlatOwn(b, side));
    var y := Located(OwnHalf(b, side), side.IsBid(), b.next, id);
    SameIdSame(FlatOwn(b, side), x, y);
    RemoveSum(FlatOwn(b, side), x);
  }

  /** The main theorem of the market: after any requests whatsoever, every account is exact, nothing traded
      outside its limit, nothing appeared or vanished, and the tick is the history's. */
  lemma {:induction false} RunGood(rs: seq<Request>)
    requires forall r :: r in rs ==> WellFormed(r)
    ensures Good(After(rs)) && After(rs).book == Run(EMPTY, rs)
  {
    hide Exec, Accepts, AllFair, BookOk;
    if rs == [] {
      OpeningGood();
    } else {
      var before := rs[..|rs| - 1];
      var r := rs[|rs| - 1];
      RunGood(before);
      ExecIfAccepted(After(before).book, r);
      if Accepts(After(before).book, r) {
        match r
        case New(o) => AddGood(After(before), o);
        case CancelOf(_, _, _) => CancelGood(After(before), r);
      }
    }
  }

  lemma ExecIfAccepted(b: State, r: Request)
    ensures !Accepts(b, r) ==> Exec(b, r) == b
  {
  }

  lemma OpeningGood()
    ensures Good(OPENING)
  {
  }
}

/** Price levels are never removed. What the emptied ones do to an incoming order: they change no trade, and exactly when
    they cost the order its own event. */
module EmptyLevels {
  import opened Core
  import opened Matching
  import opened MatchLemmas
  import opened Book
  import opened Index
  import opened Invariant
  import opened FlatBook
  import Priority
  import Tick

  // ---- A book without its empty levels ----

  /** The price map without its empty levels. */
  function Prune(levels: seq<Level>): seq<Level> {
    if levels == [] then []
    else if levels[0].nodes == [] then Prune(levels[1..])
    else [levels[0]] + Prune(levels[1..])
  }

  /** The tick rule stopped a sweep although no order at all was left within its reach. */
  ghost predicate StoppedAtEmpty(levels: seq<Level>, side: Side, limit: Price, s: Sweep) {
    s.blocked && forall j :: s.entered <= j < |levels| && Reaches(side, levels[j].price, limit) ==> levels[j].nodes == []
  }

  /** The front of the pruned map is within reach exactly when some order is. */
  lemma {:induction false} PruneReach(levels: seq<Level>, side: Side, limit: Price)
    requires SortedLevels(levels, !side.IsBid())
    ensures var p := Prune(levels);
            p != [] && Reaches(side, p[0].price, limit)
            <==> exists j :: 0 <= j < |levels| && Reaches(side, levels[j].price, limit) && levels[j].nodes != []
  {
    if levels != [] {
      SortedTail(levels, !side.IsBid());
      assert forall j :: 0 <= j < |levels[1..]| ==> levels[1..][j] == levels[j + 1];
      if levels[0].nodes == [] {
        PruneReach(levels[1..], side, limit);
        forall j | 0 <= j < |levels| && Reaches(side, levels[j].price, limit) && levels[j].nodes != []
          ensures Prune(levels) != [] && Reaches(side, Prune(levels)[0].price, limit)
        {
          assert levels[1..][j - 1] == levels[j];
        }
      }
    }
  }

  lemma {:induction false} PruneFlat(levels: seq<Level>)
    ensures Flatten(Prune(levels)) == Flatten(levels)
  {
    if levels != [] {
      PruneFlat(levels[1..]);
      if levels[0].nodes != [] {
        assert ([levels[0]] + Prune(levels[1..]))[1..] == Prune(levels[1..]);
      } else {
        assert Flatten(levels) == Flatten(levels[1..]);
      }
    }
  }

  /** Dropping the empty levels changes no trade and no resting order, for any side. The one difference: a
      sweep the tick rule stopped with no order left within reach is not stopped any more. */
  lemma {:induction false} EmptyLevelsOnlyStop(levels: seq<Level>, side: Side, limit: Price, user: UserId,
                                               want: Quantity, tick: Tick.TickState)
    requires want != 0.0 && SortedLevels(levels, !side.IsBid())
    ensures var s := SweepLevels(levels, side, limit, user, want, tick);
            var p := SweepLevels(Prune(levels), side, limit, user, want, tick);
            && s.fills == p.fills
            && Flatten(s.levels) == Flatten(p.levels)
            && (p.blocked <==> s.blocked && !StoppedAtEmpty(levels, side, limit, s))
    decreases |levels|
  {
    hide MatchNode, Tick.TradeAll;
    if levels == [] || !Reaches(side, levels[0].price, limit) || !Tick.Allows(tick, side) {
      PruneFlat(levels);
      PruneReach(levels, side, limit);
    } else {
      SortedTail(levels, !side.IsBid());
      PruneFlat(levels[1..]);
      var m := MatchNodes(levels[0].price, levels[0].nodes, user, want);
      var left := want - Total(m.fills);
      if left != 0.0 {
        EmptyLevelsOnlyStop(levels[1..], side, limit, user, left, Tick.TradeAll(tick, Prices(m.fills)));
        PruneStep(levels, side, limit, user, want, left, tick);
      } else {
        PruneLast(levels, side, limit, user, want, tick);
      }
    }
  }

  /** The case of EmptyLevelsOnlyStop where the first level meets the want. */
  lemma PruneLast(levels: seq<Level>, side: Side, limit: Price, user: UserId, want: Quantity, tick: Tick.TickState)
    requires want != 0.0 && levels != [] && Reaches(side, levels[0].price, limit) && Tick.Allows(tick, side)
    requires want - Total(MatchNodes(levels[0].price, levels[0].nodes, user, want).fills) == 0.0
    ensures var s := SweepLevels(levels, side, limit, user, want, tick);
            var p := SweepLevels(Prune(levels), side, limit, user, want, tick);
            s.fills == p.fills && Flatten(s.levels) == Flatten(p.levels) && !s.blocked && !p.blocked
  {
    hide MatchNode, Reaches, Tick.Allows;
    PruneFlat(levels[1..]);
    var level := Level(levels[0].price, MatchNodes(levels[0].price, levels[0].nodes, user, want).nodes);
    assert levels[0].nodes != [];
    assert ([levels[0]] + Prune(levels[1..]))[1..] == Prune(levels[1..]);
    assert ([level] + levels[1..])[1..] == levels[1..];
    assert ([level] + Prune(levels[1..]))[1..] == Prune(levels[1..]);
  }

  /** The inductive step of EmptyLevelsOnlyStop. */
  lemma PruneStep(levels: seq<Level>, side: Side, limit: Price, user: UserId, want: Quantity, left: Quantity,
                  tick: Tick.TickState)
    requires want != 0.0 && left != 0.0
    requires levels != [] && Reaches(side, levels[0].price, limit) && Tick.Allows(tick, side)
    requires left == want - Total(MatchNodes(levels[0].price, levels[0].nodes, user, want).fills)
    requires var t := Tick.TradeAll(tick, Prices(MatchNodes(levels[0].price, levels[0].nodes, user, want).fills));
             var s := SweepLevels(levels[1..], side, limit, user, left, t);
             var p := SweepLevels(Prune(levels[1..]), side, limit, user, left, t);
             && s.fills == p.fills && Flatten(s.levels) == Flatten(p.levels)
             && (p.blocked <==> s.blocked && !StoppedAtEmpty(levels[1..], side, limit, s))
    ensures var s := SweepLevels(levels, side, limit, user, want, tick);
            var p := SweepLevels(Prune(levels), side, limit, user, want, tick);
            && s.fills == p.fills && Flatten(s.levels) == Flatten(p.levels)
            && (p.blocked <==> s.blocked && !StoppedAtEmpty(levels, side, limit, s))
  {
    hide MatchNodes, Reaches, Tick.Allows, Tick.TradeAll, SweepLevels, Flatten, Total, StoppedAtEmpty, Prices, Tag;
    var first, rest := levels[0], Prune(levels[1..]);
    var m := MatchNodes(first.price, first.nodes, user, want);
    var t := Tick.TradeAll(tick, Prices(m.fills));
    var s := SweepLevels(levels[1..], side, limit, user, left, t);
    var p := SweepLevels(rest, side, limit, user, left, t);
    var level := Level(first.price, m.nodes);
    SweepUnfolds(levels, side, limit, user, want, tick, left);
    FlattenCons(level, s.levels);
    StopShifts(levels, side, limit, s, Sweep([level] + s.levels, m.fills + s.fills, s.blocked, s.entered + 1));
    if first.nodes == [] {
      EmptyLevelIdle(first.price, user, want, tick);
      assert m.fills + s.fills == s.fills;
    } else {
      SeqCons(first, rest);
      SweepUnfolds([first] + rest, side, limit, user, want, tick, left);
      FlattenCons(level, p.levels);
    }
  }

  lemma StopShifts(levels: seq<Level>, side: Side, limit: Price, s: Sweep, whole: Sweep)
    requires levels != [] && whole.blocked == s.blocked && whole.entered == s.entered + 1
    ensures StoppedAtEmpty(levels[1..], side, limit, s) <==> StoppedAtEmpty(levels, side, limit, whole)
  {
    assert forall j :: 0 <= j < |levels[1..]| ==> levels[1..][j] == levels[j + 1];
    assert forall j :: s.entered + 1 <= j < |levels| ==> levels[j] == levels[1..][j - 1];
  }

  lemma EmptyLevelIdle(price: Price, user: UserId, want: Quantity, tick: Tick.TickState)
    ensures MatchNodes(price, [], user, want) == LevelMatched([], []) && Tick.TradeAll(tick, Prices([])) == tick
    ensures Tag(price, []) == [] && Total([]) == 0.0
  {
    assert Prices([]) == [];
  }

  // ---- When the tick rule stops a sweep, told before the sweep ----

  predicate AllOwn(nodes: seq<Node>, user: UserId) { forall n :: n in nodes ==> n.order.userId == user }

  /** What the orders of other users at one level have left. */
  function Others(nodes: seq<Node>, user: UserId): Quantity {
    if nodes == [] then 0.0
    else (if nodes[0].order.userId == user then 0.0 else nodes[0].order.remainQty) + Others(nodes[1..], user)
  }

  /** The first level with an order of another user, or the number of levels. */
  function FirstOther(levels: seq<Level>, user: UserId): (k: nat)
    ensures k <= |levels|
    ensures k < |levels| ==> !AllOwn(levels[k].nodes, user)
  {
    if levels == [] || !AllOwn(levels[0].nodes, user) then 0 else 1 + FirstOther(levels[1..], user)
  }

  /** A trade at this price after one at the last price turns the tick against the side. */
  predicate Against(side: Side, price: Price, last: Price) {
    match side
    case BuyMinus => price < last
    case SellPlus => price > last
    case _ => false
  }

  /** The first level to trade at turns the tick against the order, does not have all it wants, and is not the last
      level within its limit. */
  predicate TurnsAndStops(levels: seq<Level>, side: Side, limit: Price, user: UserId, want: Quantity, last: Price) {
    var k := FirstOther(levels, user);
    && k + 1 < |levels| && Reaches(side, levels[k + 1].price, limit)
    && Against(side, levels[k].price, last)
    && Others(levels[k].nodes, user) < want
  }

  predicate LiveNodes(nodes: seq<Node>) { forall n :: n in nodes ==> n.order.Live() }

  /** One level gives what others have there, or what is wanted. */
  lemma {:induction false} LevelGives(price: Price, nodes: seq<Node>, user: UserId, want: Quantity)
    requires LiveNodes(nodes) && want >= 0.0
    ensures var m := MatchNodes(price, nodes, user, want);
      && Total(m.fills) == Min(want, Others(nodes, user))
      && (forall f :: f in m.fills ==> f.price == price)
      && (AllOwn(nodes, user) ==> m == LevelMatched(nodes, []))
      && (want > 0.0 && !AllOwn(nodes, user) ==> m.fills != [])
      && Others(nodes, user) >= 0.0 && (!AllOwn(nodes, user) ==> Others(nodes, user) > 0.0)
    decreases |nodes|
  {
    hide After;
    if nodes != [] {
      assert nodes[0] in nodes;
      var left := want - Total(MatchNode(price, nodes[0], user, want).fills);
      assert nodes == [nodes[0]] + nodes[1..];
      NodeGives(price, nodes[0], user, want);
      LevelGives(price, nodes[1..], user, if want == 0.0 then 0.0 else left);
      TotalAppend(MatchNode(price, nodes[0], user, want).fills, MatchNodes(price, nodes[1..], user, left).fills);
    }
  }

  lemma NodeGives(price: Price, node: Node, user: UserId, want: Quantity)
    requires node.order.Live() && want >= 0.0
    ensures var h := MatchNode(price, node, user, want);
      && Total(h.fills) == (if node.order.userId == user then 0.0 else Min(node.order.remainQty, want))
      && (forall f :: f in h.fills ==> f.price == price)
      && (if node.order.userId == user then h == LevelMatched([node], []) else h.fills != [])
  {
    hide After;
    if node.order.userId != user {
      assert MatchNode(price, node, user, want).fills[1..] == [];
    }
  }

  /** Trades at one price: the tick allows the side afterwards unless the first of them turned it. */
  lemma {:induction false} TickAfter(tick: Tick.TickState, side: Side, prices: seq<Price>, price: Price)
    requires prices != [] && (forall i :: 0 <= i < |prices| ==> prices[i] == price) && Tick.Allows(tick, side)
    ensures var t := Tick.TradeAll(tick, prices);
      t.last == price && (Tick.Allows(t, side) <==> !Against(side, price, tick.last))
  {
    SamePrice(Tick.Trade(tick, price), side, prices[1..]);
  }

  lemma {:induction false} SamePrice(tick: Tick.TickState, side: Side, prices: seq<Price>)
    requires forall i :: 0 <= i < |prices| ==> prices[i] == tick.last
    ensures var t := Tick.TradeAll(tick, prices);
      t.last == tick.last && (Tick.Allows(t, side) <==> Tick.Allows(tick, side))
    decreases |prices|
  {
    if prices != [] { SamePrice(Tick.Trade(tick, prices[0]), side, prices[1..]); }
  }

  /** No later level turns the tick against an order if the first one to trade at does not. */
  lemma {:induction false} NeverStopped(levels: seq<Level>, side: Side, limit: Price, user: UserId, want: Quantity,
                                        tick: Tick.TickState)
    requires want > 0.0 && SortedLevels(levels, !side.IsBid()) && AllLive(Flatten(levels)) && Tick.Allows(tick, side)
    requires forall i :: 0 <= i < |levels| ==> !Against(side, levels[i].price, tick.last)
    ensures !SweepLevels(levels, side, limit, user, want, tick).blocked
    decreases |levels|
  {
    hide MatchNodes, Tick.TradeAll, Tick.Allows, Total, Flatten, Others;
    if levels != [] && Reaches(side, levels[0].price, limit) {
      var m := MatchNodes(levels[0].price, levels[0].nodes, user, want);
      LiveLevels(levels);
      LevelGives(levels[0].price, levels[0].nodes, user, want);
      var left := want - Total(m.fills);
      if left != 0.0 {
        var t := Tick.TradeAll(tick, Prices(m.fills));
        TickPast(tick, side, levels[0].price, m.fills);
        TailNotAgainst(levels, side, tick.last, t.last);
        NeverStopped(levels[1..], side, limit, user, left, t);
      }
    }
  }

  /** The tick after the trades of one level. */
  lemma TickPast(tick: Tick.TickState, side: Side, price: Price, fills: seq<Fill>)
    requires Tick.Allows(tick, side) && forall f :: f in fills ==> f.price == price
    ensures var t := Tick.TradeAll(tick, Prices(fills));
      if fills == [] then t == tick
      else t.last == price && (Tick.Allows(t, side) <==> !Against(side, price, tick.last))
  {
    hide Tick.Allows, Against;
    if fills == [] {
      assert Prices(fills) == [];
    } else {
      TickAfter(tick, side, Prices(fills), price);
    }
  }

  lemma LiveLevels(levels: seq<Level>)
    requires levels != [] && AllLive(Flatten(levels))
    ensures LiveNodes(levels[0].nodes) && AllLive(Flatten(levels[1..]))
  {
    var level := levels[0];
    forall n | n in level.nodes ensures n.order.Live() {
      InTag(level.price, level.nodes, Resting(level.price, n));
      assert Resting(level.price, n) in Flatten(levels);
    }
  }

  lemma TailNotAgainst(levels: seq<Level>, side: Side, last: Price, now: Price)
    requires levels != [] && SortedLevels(levels, !side.IsBid()) && (now == last || now == levels[0].price)
    requires now == levels[0].price || forall i :: 0 <= i < |levels| ==> !Against(side, levels[i].price, last)
    ensures SortedLevels(levels[1..], !side.IsBid())
    ensures forall i :: 0 <= i < |levels[1..]| ==> !Against(side, levels[1..][i].price, now)
  {
    var t := levels[1..];
    assert forall i :: 0 <= i < |t| ==> t[i] == levels[i + 1];
  }

  /** A sweep the tick rule does not stop at once is stopped if and only if the first level to trade at turns the tick
      against the order, leaves it wanting more, and another level is within its limit; it is stopped at that level. */
  lemma {:induction false} BlockedExactly(levels: seq<Level>, side: Side, limit: Price, user: UserId, want: Quantity,
                                          tick: Tick.TickState)
    requires want > 0.0 && SortedLevels(levels, !side.IsBid()) && AllLive(Flatten(levels)) && Tick.Allows(tick, side)
    ensures var s := SweepLevels(levels, side, limit, user, want, tick);
      && (s.blocked <==> TurnsAndStops(levels, side, limit, user, want, tick.last))
      && (s.blocked ==> s.entered == FirstOther(levels, user) + 1 && s.fills != [] && 0.0 < Total(s.fills) < want)
    decreases |levels|
  {
    hide MatchNodes, Tick.Allows, Total, Flatten, Others, AllOwn, Against, TurnsAndStops;
    if levels == [] || !Reaches(side, levels[0].price, limit) {
      NotWithin(levels, side, limit, user, want, tick.last);
    } else {
      LiveLevels(levels);
      TailNotAgainst(levels, side, levels[0].price, levels[0].price);
      if AllOwn(levels[0].nodes, user) {
        BlockedExactly(levels[1..], side, limit, user, want, tick);
        OwnLevelFirst(levels, side, limit, user, want, tick);
      } else {
        TradesAtFirst(levels, side, limit, user, want, tick);
      }
    }
  }

  /** A level with nobody else's orders is passed through. */
  lemma OwnLevelFirst(levels: seq<Level>, side: Side, limit: Price, user: UserId, want: Quantity, tick: Tick.TickState)
    requires want > 0.0 && levels != [] && Reaches(side, levels[0].price, limit) && Tick.Allows(tick, side)
    requires LiveNodes(levels[0].nodes) && AllOwn(levels[0].nodes, user)
    ensures var s := SweepLevels(levels, side, limit, user, want, tick);
            var r := SweepLevels(levels[1..], side, limit, user, want, tick);
      && s.blocked == r.blocked && s.entered == 1 + r.entered && s.fills == r.fills
      && FirstOther(levels, user) == 1 + FirstOther(levels[1..], user)
      && (TurnsAndStops(levels, side, limit, user, want, tick.last)
          <==> TurnsAndStops(levels[1..], side, limit, user, want, tick.last))
  {
    hide MatchNodes, Tick.Allows, Total, Others, AllOwn, Against, TurnsAndStops, Reaches;
    LevelGives(levels[0].price, levels[0].nodes, user, want);
    TotalNothing();
    TickPast(tick, side, levels[0].price, []);
    ShiftStops(levels, side, limit, user, want, tick.last);
    SweepUnfolds(levels, side, limit, user, want, tick, want);
    var r := SweepLevels(levels[1..], side, limit, user, want, tick);
    assert [] + r.fills == r.fills;
  }

  /** The first level to trade at decides. */
  lemma TradesAtFirst(levels: seq<Level>, side: Side, limit: Price, user: UserId, want: Quantity, tick: Tick.TickState)
    requires want > 0.0 && SortedLevels(levels, !side.IsBid()) && AllLive(Flatten(levels)) && Tick.Allows(tick, side)
    requires levels != [] && Reaches(side, levels[0].price, limit) && !AllOwn(levels[0].nodes, user)
    ensures var s := SweepLevels(levels, side, limit, user, want, tick);
      && (s.blocked <==> TurnsAndStops(levels, side, limit, user, want, tick.last))
      && (s.blocked ==> s.entered == FirstOther(levels, user) + 1 && s.fills != [] && 0.0 < Total(s.fills) < want)
  {
    hide MatchNodes, Tick.TradeAll, Tick.Allows, Total, Flatten, Others, AllOwn, Against;
    LiveLevels(levels);
    LevelGives(levels[0].price, levels[0].nodes, user, want);
    var m := MatchNodes(levels[0].price, levels[0].nodes, user, want);
    var left := want - Total(m.fills);
    var t := Tick.TradeAll(tick, Prices(m.fills));
    TickPast(tick, side, levels[0].price, m.fills);
    TailNotAgainst(levels, side, levels[0].price, levels[0].price);
    if left != 0.0 {
      SweepUnfolds(levels, side, limit, user, want, tick, left);
      if Against(side, levels[0].price, tick.last) {
        assert m.fills + [] == m.fills;
      } else {
        NeverStopped(levels[1..], side, limit, user, left, t);
      }
    }
  }

  lemma NotWithin(levels: seq<Level>, side: Side, limit: Price, user: UserId, want: Quantity, last: Price)
    requires SortedLevels(levels, !side.IsBid()) && (levels == [] || !Reaches(side, levels[0].price, limit))
    ensures !TurnsAndStops(levels, side, limit, user, want, last)
  {
  }

  lemma ShiftStops(levels: seq<Level>, side: Side, limit: Price, user: UserId, want: Quantity, last: Price)
    requires levels != [] && AllOwn(levels[0].nodes, user)
    ensures FirstOther(levels, user) == 1 + FirstOther(levels[1..], user)
    ensures TurnsAndStops(levels, side, limit, user, want, last)
       <==> TurnsAndStops(levels[1..], side, limit, user, want, last)
  {
    hide Others, AllOwn, Against, Reaches;
    assert forall i :: 0 <= i < |levels[1..]| ==> levels[1..][i] == levels[i + 1];
  }

  // ---- What the emptied levels cost ----

  /** And behind the level that turns the tick there is no order at all within the limit, only emptied levels. */
  predicate StopsAtEmpty(levels: seq<Level>, o: OrderInfo, tick: Tick.TickState) {
    var side, user := o.order.side, o.order.userId;
    && Tick.Allows(tick, side)
    && TurnsAndStops(levels, side, o.price, user, o.order.remainQty, tick.last)
    && forall j :: FirstOther(levels, user) < j < |levels| && Reaches(side, levels[j].price, o.price) ==>
         levels[j].nodes == []
  }

  function SweepFor(levels: seq<Level>, o: OrderInfo, tick: Tick.TickState): Sweep {
    SweepLevels(levels, o.order.side, o.price, o.order.userId, o.order.remainQty, tick)
  }

  /** A sweep that is not allowed to begin trades nothing and tells nothing. */
  lemma NothingBegun(levels: seq<Level>, o: OrderInfo, tick: Tick.TickState)
    requires WellFormed(New(o)) && !Tick.Allows(tick, o.order.side)
    ensures SweepFor(levels, o, tick).fills == [] && TakerReport(o, SweepFor(levels, o, tick)) == []
  {
  }

  /** The exact difference the emptied levels make to one order on a side: same trades, same resting orders; and the
      order's own event is lost exactly in the case StopsAtEmpty describes. */
  lemma EmptyLevelsExactly(levels: seq<Level>, o: OrderInfo, tick: Tick.TickState)
    requires WellFormed(New(o)) && SortedLevels(levels, !o.order.side.IsBid()) && AllLive(Flatten(levels))
    ensures var s, p := SweepFor(levels, o, tick), SweepFor(Prune(levels), o, tick);
      && s.fills == p.fills && Flatten(s.levels) == Flatten(p.levels)
      && if StopsAtEmpty(levels, o, tick) then
           TakerReport(o, s) == [] && TakerReport(o, p) == [Taker(o, s.fills).(execStatus := PartiallyFilled)]
         else TakerReport(o, s) == TakerReport(o, p)
  {
    hide SweepLevels, Flatten, Tick.Allows, Total, Aggress, Prune, TurnsAndStops, SortedLevels, AllLive;
    var side, user, want := o.order.side, o.order.userId, o.order.remainQty;
    EmptyLevelsOnlyStop(levels, side, o.price, user, want, tick);
    if Tick.Allows(tick, side) {
      BlockedExactly(levels, side, o.price, user, want, tick);
      var s := SweepFor(levels, o, tick);
      if s.blocked {
        SweepGood(levels, side, o.price, user, want, tick);
        TakerLeft(o, s.fills);
      }
    } else {
      NothingBegun(levels, o, tick);
      NothingBegun(Prune(levels), o, tick);
    }
  }

  lemma SweepGood(levels: seq<Level>, side: Side, limit: Price, user: UserId, want: Quantity, tick: Tick.TickState)
    requires want > 0.0 && AllLive(Flatten(levels))
    ensures GoodFills(SweepLevels(levels, side, limit, user, want, tick).fills)
  {
    hide SweepLevels, Match;
    SweepIsMatch(levels, side, limit, user, want, tick);
    var n := SweepLevels(levels, side, limit, user, want, tick).entered;
    assert levels == levels[..n] + levels[n..];
    FlattenAppend(levels[..n], levels[n..]);
    assert AllLive(Flatten(levels[..n])) by {
      assert forall r :: r in Flatten(levels[..n]) ==> r in Flatten(levels);
    }
    MatchSound(Flatten(levels[..n]), user, want);
  }

  lemma TakerLeft(o: OrderInfo, fills: seq<Fill>)
    requires GoodFills(fills) && o.order.CumQty() >= 0.0
    ensures Taker(o, fills).order.remainQty == o.order.remainQty - Total(fills)
  {
    Priority.AggressAccount(Event(NewOrder, 0.0, 0.0, o.order), fills);
  }

  /** The book with the emptied levels of the side an order is matched against taken out. */
  function Lean(b: State, side: Side): State {
    WithHalves(b, side, Half(Prune(Opposite(b, side).levels), Opposite(b, side).ids), OwnHalf(b, side))
  }

  /** What a caller can check before the call: whether the emptied levels will cost this order its event. */
  predicate LosesEvent(b: State, o: OrderInfo) { StopsAtEmpty(Opposite(b, o.order.side).levels, o, b.tick) }

  /** The same in the book: with or without the emptied levels, add leaves the same resting orders, tick and events, but
      for the taker's own event, which is missing exactly if LosesEvent held before the call. */
  lemma EmptyLevelsInBook(b: State, o: OrderInfo)
    requires BookOk(b) && WellFormed(New(o))
    ensures var a, c, side := Add(b, o), Add(Lean(b, o.order.side), o), o.order.side;
      && FlatOpposite(a, side) == FlatOpposite(c, side) && FlatOwn(a, side) == FlatOwn(c, side)
      && a.tick == c.tick && a.next == c.next
      && c.events == a.events + (if LosesEvent(b, o)
                                 then [Taker(o, SweepOf(b, o).fills).(execStatus := PartiallyFilled)] else [])
  {
    hide SweepLevels, Flatten, Taker, Reports, BookOk, StopsAtEmpty, Prune, TakerReport, Tick.TradeAll, Leftover, Gone;
    var side := o.order.side;
    OppositeOk(b, side);
    EmptyLevelsExactly(Opposite(b, side).levels, o, b.tick);
    LeanSweeps(b, o);
    assert Add(b, o).events + [] == Add(b, o).events;
    var e := b.events + Reports(SweepOf(b, o).fills);
    assert e + [] == e;
  }

  lemma LeanSweeps(b: State, o: OrderInfo)
    ensures var c, side := Lean(b, o.order.side), o.order.side;
      && SweepOf(c, o) == SweepFor(Prune(Opposite(b, side).levels), o, b.tick)
      && SweepOf(b, o) == SweepFor(Opposite(b, side).levels, o, b.tick)
      && OwnHalf(c, side) == OwnHalf(b, side) && c.tick == b.tick && c.events == b.events && c.next == b.next
  {
    hide SweepLevels, Prune;
  }
}

/** The lost event does occur: five requests to an empty market after which a BuyMinus order trades and is told nothing
    of it, because a level emptied by a cancel is still there. */
module EmptyLevelRun {
  import opened Core
  import opened Matching
  import opened MatchLemmas
  import opened Book
  import opened Invariant
  import opened EmptyLevels
  import Tick

  function Asking(user: UserId, id: OrderId, price: Price): OrderInfo {
    OrderInfo("x", price, Order(user, id, 1.0, 1.0, 0.0, Sell, NewOrder))
  }

  const BID := OrderInfo("x", 20.0, Order("taker", "b", 1.0, 1.0, 0.0, Buy, NewOrder))

  /** An ask at 11 comes and goes, a trade at 20 leaves a plus tick, an ask at 10 rests. */
  const REQUESTS: seq<Request> :=
    [New(Asking("maker", "a", 11.0)), CancelOf("a", Sell, 1.0), New(BID), New(Asking("maker", "c", 20.0)),
     New(Asking("maker", "d", 10.0))]

  const TAKER := OrderInfo("x", 12.0, Order("taker", "e", 2.0, 2.0, 0.0, BuyMinus, NewOrder))

  lemma RunSnoc(b: State, rs: seq<Request>, r: Request)
    ensures Run(b, rs + [r]) == Exec(Run(b, rs), r)
  {
    hide Exec;
    assert (rs + [r])[..|rs + [r]| - 1] == rs;
  }

  // ---- Orders that find nothing to trade with ----

  lemma QuietAdd(b: State, o: OrderInfo, n: nat)
    requires WellFormed(New(o)) && SweepOf(b, o) == Sweep(Opposite(b, o.order.side).levels, [], false, n)
    requires o.order.status == NewOrder
    ensures var own := OwnHalf(b, o.order.side);
      Add(b, o) == WithHalves(b, o.order.side, Opposite(b, o.order.side),
        Half(Rest(own.levels, o.order.side.IsBid(), o.price, Node(b.next, o.order)),
             own.ids[o.order.orderId := IdInfo(b.next, o.price)])).(next := b.next + 1)
  {
    hide SweepOf, Rest;
    var ids := Opposite(b, o.order.side).ids;
    assert Gone([]) == {} && ids - {} == ids;
    assert Prices([]) == [] && Reports([]) == [] && b.events + [] + [] == b.events;
  }

  const EMPTIED := Level(11.0, [])

  const ASK_A := Node(0, Asking("maker", "a", 11.0).order)

  const BID_B := Node(1, BID.order)

  const ASK_D := Node(3, Asking("maker", "d", 10.0).order)

  const PLUS := Tick.TickState(20.0, 0.0, Tick.PlusTick)

  /** The market after i requests; events is what was reported of the trade at 20. */
  function After(i: nat, events: seq<Event>): State {
    if i == 0 then EMPTY
    else if i == 1 then
      State(Half([Level(11.0, [ASK_A])], map["a" := IdInfo(0, 11.0)]), Half([], map[]), Tick.INITIAL, [], 1)
    else if i == 2 then State(Half([EMPTIED], map[]), Half([], map[]), Tick.INITIAL, [], 1)
    else if i == 3 then
      State(Half([EMPTIED], map[]), Half([Level(20.0, [BID_B])], map["b" := IdInfo(1, 20.0)]), Tick.INITIAL, [], 2)
    else if i == 4 then State(Half([EMPTIED], map[]), Half([Level(20.0, [])], map[]), PLUS, events, 3)
    else
      State(Half([Level(10.0, [ASK_D]), EMPTIED], map["d" := IdInfo(3, 10.0)]), Half([Level(20.0, [])], map[]), PLUS,
            events, 4)
  }

  lemma First(e: seq<Event>)
    ensures Exec(After(0, e), REQUESTS[0]) == After(1, e)
  {
    QuietAdd(EMPTY, Asking("maker", "a", 11.0), 0);
    assert Rest([], false, 11.0, ASK_A) == [Level(11.0, [ASK_A])];
  }

  lemma Second(e: seq<Event>)
    ensures Exec(After(1, e), REQUESTS[1]) == After(2, e)
  {
    var b := After(1, e);
    assert FindNode([ASK_A], 0) == Some(ASK_A.order);
    assert [ASK_A][1..] == [] && [Level(11.0, [ASK_A])][1..] == [];
    assert Erase(b.asks.levels, IdInfo(0, 11.0)) == [EMPTIED];
    assert map["a" := IdInfo(0, 11.0)] - {"a"} == map[];
  }

  lemma Third(e: seq<Event>)
    ensures Exec(After(2, e), REQUESTS[2]) == After(3, e)
  {
    var b := After(2, e);
    EmptySweep(EMPTIED, Buy, 20.0, "taker", 1.0, Tick.INITIAL);
    QuietAdd(b, BID, 1);
  }

  /** A plain order within reach of one emptied level. */
  lemma EmptySweep(level: Level, side: Side, limit: Price, user: UserId, want: Quantity, tick: Tick.TickState)
    requires level.nodes == [] && Reaches(side, level.price, limit) && side.Plain() && want > 0.0
    ensures SweepLevels([level], side, limit, user, want, tick) == Sweep([level], [], false, 1)
  {
    assert MatchNodes(level.price, [], user, want) == LevelMatched([], []);
    assert Total([]) == 0.0 && [level][1..] == [] && Prices([]) == [];
    assert SweepLevels([], side, limit, user, want, tick) == Sweep([], [], false, 0);
  }

  lemma Fourth(e: seq<Event>) returns (events: seq<Event>)
    ensures Exec(After(3, e), REQUESTS[3]) == After(4, events)
  {
    var b, o := After(3, e), Asking("maker", "c", 20.0);
    var f := Fill(BID_B, 20.0, 1.0);
    WholeSweep(f);
    events := Add(b, o).events;
    assert Gone([f]) == {"b"} by { assert f in [f]; }
    assert map["b" := IdInfo(1, 20.0)] - {"b"} == map[];
    assert Prices([f]) == [20.0] && [20.0][1..] == [];
    EmptyLevels.TakerLeft(o, [f]);
  }

  lemma WholeSweep(f: Fill)
    requires f == Fill(BID_B, 20.0, 1.0)
    ensures SweepLevels([Level(20.0, [BID_B])], Sell, 20.0, "maker", 1.0, Tick.INITIAL) == Sweep([Level(20.0, [])], [f], false, 1)
    ensures Total([f]) == 1.0
  {
    assert [f][1..] == [] && [BID_B][1..] == [] && [Level(20.0, [BID_B])][1..] == [];
    assert MatchNode(20.0, BID_B, "maker", 1.0) == LevelMatched([], [f]);
    assert MatchNodes(20.0, [], "maker", 0.0) == LevelMatched([], []);
    assert MatchNodes(20.0, [BID_B], "maker", 1.0) == LevelMatched([], [f]);
  }

  lemma Fifth(e: seq<Event>)
    ensures Exec(After(4, e), REQUESTS[4]) == After(5, e)
  {
    var b := After(4, e);
    EmptySweep(Level(20.0, []), Sell, 10.0, "maker", 1.0, PLUS);
    QuietAdd(b, Asking("maker", "d", 10.0), 1);
    assert Rest([EMPTIED], false, 10.0, ASK_D) == [Level(10.0, [ASK_D]), EMPTIED];
  }

  lemma Reached() returns (events: seq<Event>)
    ensures Run(EMPTY, REQUESTS) == After(5, events)
  {
    hide Exec, After;
    assert REQUESTS[..0] == [];
    assert REQUESTS[..1] == REQUESTS[..0] + [REQUESTS[0]];
    assert REQUESTS[..2] == REQUESTS[..1] + [REQUESTS[1]];
    assert REQUESTS[..3] == REQUESTS[..2] + [REQUESTS[2]];
    assert REQUESTS[..4] == REQUESTS[..3] + [REQUESTS[3]];
    assert REQUESTS == REQUESTS[..4] + [REQUESTS[4]];
    forall i | 0 <= i < 5 ensures Run(EMPTY, REQUESTS[..i] + [REQUESTS[i]]) == Exec(Run(EMPTY, REQUESTS[..i]), REQUESTS[i]) {
      RunSnoc(EMPTY, REQUESTS[..i], REQUESTS[i]);
    }
    AtStart();
    First([]);
    Second([]);
    Third([]);
    events := Fourth([]);
    Fifth(events);
  }

  lemma AtStart()
    ensures After(0, []) == EMPTY && Run(EMPTY, []) == EMPTY
  {
  }

  lemma TakerLoses(events: seq<Event>)
    ensures Accepts(After(5, events), New(TAKER)) && LosesEvent(After(5, events), TAKER)
  {
    var levels := After(5, events).asks.levels;
    assert levels[1..] == [EMPTIED];
    assert !AllOwn(levels[0].nodes, "taker") by { assert ASK_D in levels[0].nodes; }
    assert FirstOther(levels, "taker") == 0;
    assert [ASK_D][1..] == [];
    assert Others([ASK_D], "taker") == 1.0;
  }

  /** A run of the market, and then an accepted order that trades, whose event is sent in the same book without the
      emptied levels and in this one is not. */
  lemma EmptyLevelHidesEvent()
    ensures (forall r :: r in REQUESTS ==> WellFormed(r)) && WellFormed(New(TAKER))
    ensures var b := Run(EMPTY, REQUESTS);
      && Accepts(b, New(TAKER)) && LosesEvent(b, TAKER)
      && Run(EMPTY, REQUESTS + [New(TAKER)]).events
         + [Taker(TAKER, SweepOf(b, TAKER).fills).(execStatus := PartiallyFilled)]
         == Add(Lean(b, BuyMinus), TAKER).events
  {
    hide After, Run, Lean, BookOk, SweepOf, LosesEvent, Taker, Add;
    AllWellFormed();
    var events := Reached();
    TakerLoses(events);
    RunKeeps(REQUESTS);
    RunSnoc(EMPTY, REQUESTS, New(TAKER));
    EmptyLevelsInBook(Run(EMPTY, REQUESTS), TAKER);
  }

  lemma AllWellFormed()
    ensures (forall r :: r in REQUESTS ==> WellFormed(r)) && WellFormed(New(TAKER))
  {
  }
}

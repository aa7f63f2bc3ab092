/** Both kinds of blocked request do occur, and so does a stranded one: a run from the start for each, to a state in
    which nothing but a new arrival or an idle turn of a spin loop is left to do while a ticket waits. */
module TicketJams {
  import opened Core
  import opened Book
  import opened Tickets
  import opened TicketInvariant
  import opened TicketFate
  import opened TicketStranded
  import opened TicketProgress
  import EmptyLevelRun
  import Matching

  function Buying(id: nat, orderId: OrderId, limit: bool): Item {
    Item(id, NewOrders, New(OrderInfo("x", 1.0, Order("u", orderId, 1.0, 1.0, 0.0, Buy, NewOrder))), true, limit)
  }

  const MARKET_ORDER := Buying(0, "a", false)

  const LIMIT_ORDER := Buying(1, "b", true)

  const CROSS_CANCEL := Item(0, Cancels, CancelOf("a", Cross, 1.0), true, true)

  /** Nothing is left to do but to wait for another request. */
  ghost predicate Stuck(s: System) {
    s.tickets != [] && forall a :: Enabled(s, a) ==> a.Issue? || IdleSpin(s, a)
  }

  lemma Extend(actions: seq<Action>, s: System, a: Action)
    requires Reaches(START, actions, s) && Enabled(s, a)
    ensures Reaches(START, actions + [a], Do(s, a))
  {
    hide Do, Enabled, START;
    var t := Do(s, a);
    assert [a][1..] == [] && Reaches(t, [], t);
    assert Reaches(s, [a], t);
    ReachesTrans(START, actions, s, [a], t);
  }

  // ---- A cancel on an unsupported side ----

  const CRASH_RUN: seq<Action> := [Issue(CROSS_CANCEL), Enqueue, Take(Cancels), Check(Cancels), Leave(Cancels)]

  const NONE := Pipe([], Waiting, [], Idle)

  function CrashState(i: nat): System {
    if i == 0 then START
    else
      var c := CROSS_CANCEL;
      System([c], false, if i == 1 then Some(c) else None, NONE,
             Pipe(if i == 2 then [c] else [],
                  if i < 3 then Waiting else if i == 3 then Checking(c) else if i == 4 then Crashed(c) else Left(c),
                  [], Idle),
             EMPTY, [c], [])
  }

  lemma CrashStep(i: nat)
    requires i < |CRASH_RUN|
    ensures Enabled(CrashState(i), CRASH_RUN[i]) && Do(CrashState(i), CRASH_RUN[i]) == CrashState(i + 1)
  {
    hide EMPTY;
    var t, u := Do(CrashState(i), CRASH_RUN[i]), CrashState(i + 1);
    assert t.tickets == u.tickets && t.issued == u.issued;
    assert t.cancels.input == u.cancels.input && t.cancels == u.cancels;
  }

  /** One complete cancel on side Cross, alone in the market, ends its input stage and leaves its ticket behind. */
  lemma CrashJams() returns (actions: seq<Action>, s: System)
    ensures Reaches(START, actions, s)
    ensures s.cancels.stage == Left(CROSS_CANCEL) && s.tickets == [CROSS_CANCEL]
    ensures Stuck(s) && Jammed(s.issued) && !CanDrain(s)
  {
    hide Do, Enabled, Reaches, CrashState, START, CanDrain, Stuck;
    CrashEnds();
    actions, s := [], START;
    for i := 0 to |CRASH_RUN|
      invariant actions == CRASH_RUN[..i] && Reaches(START, actions, s) && s == CrashState(i)
    {
      CrashStep(i);
      Extend(actions, s, CRASH_RUN[i]);
      actions, s := actions + [CRASH_RUN[i]], Do(s, CRASH_RUN[i]);
    }
    DrainsIffNotJammed(actions, s);
  }

  lemma CrashEnds()
    ensures START == CrashState(0) && Reaches(START, [], START)
    ensures var s := CrashState(|CRASH_RUN|);
      && s.cancels.stage == Left(CROSS_CANCEL) && s.tickets == [CROSS_CANCEL] && Stuck(s) && Jammed(s.issued)
  {
    var s := CrashState(|CRASH_RUN|);
    assert CROSS_CANCEL in s.issued && Blocked(s.issued, CROSS_CANCEL);
  }

  // ---- An order of another type before a Limit order ----

  const TYPE_RUN: seq<Action> :=
    [Issue(MARKET_ORDER), Enqueue, Take(NewOrders), Check(NewOrders), Forward(NewOrders), Pull(NewOrders),
     Issue(LIMIT_ORDER), Enqueue, Take(NewOrders), Check(NewOrders)]

  function TypeState(i: nat): System {
    var y, x := MARKET_ORDER, LIMIT_ORDER;
    if i == 0 then START
    else if i < 7 then
      System(if i < 4 then [y] else [], false, if i == 1 then Some(y) else None,
             Pipe(if i == 2 then [y] else [], if i == 3 then Checking(y) else if i == 4 then Reported(y) else Waiting,
                  if i == 5 then [y] else [], if i == 6 then SpinEmpty(y) else Idle),
             NONE, EMPTY, [y], [])
    else
      System([x], false, if i == 7 then Some(x) else None,
             Pipe(if i == 8 then [x] else [], if i == 9 then Checking(x) else Waiting,
                  if i == 10 then [x] else [], SpinEmpty(y)),
             NONE, EMPTY, [y, x], [])
  }

  lemma TypeStep(i: nat)
    requires i < |TYPE_RUN|
    ensures Enabled(TypeState(i), TYPE_RUN[i]) && Do(TypeState(i), TYPE_RUN[i]) == TypeState(i + 1)
  {
    hide Enabled, Do, TypeState;
    if i < 3 { TypeIssued(i); } else if i < 6 { TypeReported(i); } else { TypeFollowed(i); }
  }

  lemma TypeIssued(i: nat)
    requires i < 3
    ensures Enabled(TypeState(i), TYPE_RUN[i]) && Do(TypeState(i), TYPE_RUN[i]) == TypeState(i + 1)
  {
    hide EMPTY;
    var t, u := Do(TypeState(i), TYPE_RUN[i]), TypeState(i + 1);
    assert t.tickets == u.tickets && t.issued == u.issued;
    assert t.orders.input == u.orders.input && t.orders.queue == u.orders.queue && t.orders == u.orders;
  }

  lemma TypeReported(i: nat)
    requires 3 <= i < 6
    ensures Enabled(TypeState(i), TYPE_RUN[i]) && Do(TypeState(i), TYPE_RUN[i]) == TypeState(i + 1)
  {
    hide EMPTY;
    var t, u := Do(TypeState(i), TYPE_RUN[i]), TypeState(i + 1);
    assert t.tickets == u.tickets && t.issued == u.issued;
    assert t.orders.input == u.orders.input && t.orders.queue == u.orders.queue && t.orders == u.orders;
  }

  lemma TypeFollowed(i: nat)
    requires 6 <= i < |TYPE_RUN|
    ensures Enabled(TypeState(i), TYPE_RUN[i]) && Do(TypeState(i), TYPE_RUN[i]) == TypeState(i + 1)
  {
    hide EMPTY;
    var t, u := Do(TypeState(i), TYPE_RUN[i]), TypeState(i + 1);
    assert t.tickets == u.tickets && t.issued == u.issued;
    assert t.orders.input == u.orders.input && t.orders.queue == u.orders.queue && t.orders == u.orders;
  }

  /** An order of another type and a Limit order behind it: the worker spins for ever, the Limit order's ticket stays. */
  lemma TypeJams() returns (actions: seq<Action>, s: System)
    ensures Reaches(START, actions, s)
    ensures s.orders.worker == SpinEmpty(MARKET_ORDER) && s.tickets == [LIMIT_ORDER]
    ensures Stuck(s) && Jammed(s.issued) && !CanDrain(s)
  {
    hide Do, Enabled, Reaches, TypeState, START, CanDrain, Stuck;
    TypeEnds();
    actions, s := [], START;
    for i := 0 to |TYPE_RUN|
      invariant actions == TYPE_RUN[..i] && Reaches(START, actions, s) && s == TypeState(i)
    {
      TypeStep(i);
      Extend(actions, s, TYPE_RUN[i]);
      actions, s := actions + [TYPE_RUN[i]], Do(s, TYPE_RUN[i]);
    }
    DrainsIffNotJammed(actions, s);
  }

  lemma TypeEnds()
    ensures START == TypeState(0) && Reaches(START, [], START)
    ensures var s := TypeState(|TYPE_RUN|);
      && s.orders.worker == SpinEmpty(MARKET_ORDER) && s.tickets == [LIMIT_ORDER] && Stuck(s) && Jammed(s.issued)
  {
    var s := TypeState(|TYPE_RUN|);
    assert s.issued[0] == MARKET_ORDER && s.issued[1] == LIMIT_ORDER;
    assert Earlier(s.issued, MARKET_ORDER, LIMIT_ORDER);
    assert LIMIT_ORDER in s.issued && Blocked(s.issued, LIMIT_ORDER);
  }

  // ---- A cancel left behind by a worker that stops ----

  const RESTING := Buying(0, "a", true)

  const CANCEL := Item(1, Cancels, CancelOf("a", Buy, 1.0), true, true)

  const CRASHER := Item(2, Cancels, CancelOf("a", Cross, 1.0), true, true)

  const BOOK := Add(EMPTY, RESTING.request.info)

  const STRAND_RUN: seq<Action> :=
    [Issue(RESTING), Enqueue, Take(NewOrders), Check(NewOrders), Pull(NewOrders), Spin(NewOrders), Spin(NewOrders),
     Spin(NewOrders), Lock(NewOrders), Decide(NewOrders), Act(NewOrders), Clear(NewOrders), Pop(NewOrders),
     Issue(CANCEL), Enqueue, Take(Cancels), Check(Cancels), Forward(Cancels),
     Issue(CRASHER), Enqueue, Take(Cancels), Check(Cancels), Leave(Cancels)]

  function RestingWorker(i: nat): Worker {
    var x := RESTING;
    if i == 5 then SpinEmpty(x) else if i == 6 then SpinFront(x) else if i == 7 then SpinLock(x)
    else if i == 8 then SetLock(x) else if i == 9 then Deciding(x) else if i == 10 then Acting(x)
    else if i == 11 then Clearing(x) else if i == 12 then Popping(x) else Idle
  }

  function StrandState(i: nat): System {
    var x, c, d := RESTING, CANCEL, CRASHER;
    if i == 0 then START
    else if i <= 13 then
      System(if i < 13 then [x] else [], 9 <= i < 12, if i == 1 then Some(x) else None,
             Pipe(if i == 2 then [x] else [], if i == 3 then Checking(x) else Waiting, if i == 4 then [x] else [],
                  RestingWorker(i)),
             NONE, if i < 11 then EMPTY else BOOK, [x], if i < 11 then [] else [x])
    else if i <= 18 then
      System([c], false, if i == 14 then Some(c) else None, NONE,
             Pipe(if i == 15 then [c] else [],
                  if i == 16 then Checking(c) else if i == 17 then ReadingFront(c) else Waiting,
                  if i == 18 then [c] else [], Idle),
             BOOK, [x, c], [x])
    else
      System([c, d], false, if i == 19 then Some(d) else None, NONE,
             Pipe(if i == 20 then [d] else [],
                  if i < 21 then Waiting else if i == 21 then Checking(d) else if i == 22 then Crashed(d) else Left(d),
                  [c], Idle),
             BOOK, [x, c, d], [x])
  }

  lemma StrandStep(i: nat)
    requires i < |STRAND_RUN|
    ensures Enabled(StrandState(i), STRAND_RUN[i]) && Do(StrandState(i), STRAND_RUN[i]) == StrandState(i + 1)
  {
    hide Enabled, Do, StrandState;
    if i < 5 { StrandOrder(i); } else if i < 13 { StrandWorker(i); } else if i < 18 { StrandCancel(i); } else { StrandCrash(i); }
  }

  lemma StrandOrder(i: nat)
    requires i < 5
    ensures Enabled(StrandState(i), STRAND_RUN[i]) && Do(StrandState(i), STRAND_RUN[i]) == StrandState(i + 1)
  {
    hide EMPTY, BOOK, RestingWorker, PreCheck, Finish, Accepts, Apply, OwnHalf;
    RestingIdle();
    var t, u := Do(StrandState(i), STRAND_RUN[i]), StrandState(i + 1);
    assert t.tickets == u.tickets && t.issued == u.issued;
    assert t.orders.input == u.orders.input && t.orders.queue == u.orders.queue && t.orders == u.orders;
  }

  lemma RestingIdle()
    ensures forall i: nat :: i < 5 ==> RestingWorker(i) == Idle
    ensures RestingWorker(5) == SpinEmpty(RESTING)
  {
  }

  lemma StrandWorker(i: nat)
    requires 5 <= i < 13
    ensures Enabled(StrandState(i), STRAND_RUN[i]) && Do(StrandState(i), STRAND_RUN[i]) == StrandState(i + 1)
  {
    RestingAccepted();
    hide EMPTY, BOOK, Accepts, Add;
    var t, u := Do(StrandState(i), STRAND_RUN[i]), StrandState(i + 1);
    assert t.tickets == u.tickets && t.executed == u.executed;
    assert t.orders == u.orders;
  }

  lemma RestingAccepted()
    ensures Accepts(EMPTY, RESTING.request) && BOOK == Add(EMPTY, RESTING.request.info)
  {
  }

  lemma StrandCancel(i: nat)
    requires 13 <= i < 18
    ensures Enabled(StrandState(i), STRAND_RUN[i]) && Do(StrandState(i), STRAND_RUN[i]) == StrandState(i + 1)
  {
    CancelFine();
    hide EMPTY, BOOK, PreCheck;
    var t, u := Do(StrandState(i), STRAND_RUN[i]), StrandState(i + 1);
    assert t.tickets == u.tickets && t.issued == u.issued;
    assert t.cancels.input == u.cancels.input && t.cancels.queue == u.cancels.queue && t.cancels == u.cancels;
  }

  /** The order rests, so the cancel passes its input stage. */
  lemma CancelFine()
    ensures PreCheck(BOOK, CANCEL.request)
  {
    EmptyLevelRun.QuietAdd(EMPTY, RESTING.request.info, 0);
    var node := Matching.Node(0, RESTING.request.info.order);
    assert Rest([], true, 1.0, node) == [Matching.Level(1.0, [node])];
  }

  lemma StrandCrash(i: nat)
    requires 18 <= i < |STRAND_RUN|
    ensures Enabled(StrandState(i), STRAND_RUN[i]) && Do(StrandState(i), STRAND_RUN[i]) == StrandState(i + 1)
  {
    hide EMPTY, BOOK, PreCheck;
    var t, u := Do(StrandState(i), STRAND_RUN[i]), StrandState(i + 1);
    assert t.tickets == u.tickets && t.issued == u.issued;
    assert t.cancels.input == u.cancels.input && t.cancels == u.cancels;
  }

  /** The worker finds its queue empty; a cancel passes its check and is pushed; the next cancel makes the input stage
      throw; and the worker, asked to stop, leaves the first one in its queue. */
  lemma StrandJams() returns (actions: seq<Action>, s: System)
    ensures Reaches(START, actions, s)
    ensures Stranded(s, CANCEL) && s.tickets == [CANCEL, CRASHER] && !Blocked(s.issued, CANCEL) && Stuck(s)
  {
    hide Do, Enabled, Reaches, StrandState, START, Stuck, Stranded, Blocked;
    StrandEnds();
    actions, s := [], START;
    for i := 0 to |STRAND_RUN|
      invariant actions == STRAND_RUN[..i] && Reaches(START, actions, s) && s == StrandState(i)
    {
      StrandStep(i);
      Extend(actions, s, STRAND_RUN[i]);
      actions, s := actions + [STRAND_RUN[i]], Do(s, STRAND_RUN[i]);
    }
  }

  lemma StrandEnds()
    ensures START == StrandState(0) && Reaches(START, [], START)
    ensures var s := StrandState(|STRAND_RUN|);
      Stranded(s, CANCEL) && s.tickets == [CANCEL, CRASHER] && !Blocked(s.issued, CANCEL) && Stuck(s)
  {
    hide BOOK;
  }
}

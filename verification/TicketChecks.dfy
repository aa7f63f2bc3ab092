/** What the input stages let through, by the fields of the request and the orders that rest, and what becomes of the
    rest: nothing they turn away is ever executed. */
module TicketChecks {
  import opened Core
  import opened Book
  import opened Invariant
  import opened Acceptance
  import opened Tickets
  import opened TicketLists
  import opened TicketLine
  import opened TicketInvariant
  import opened TicketFate
  import opened TicketStranded
  import TicketSafety

  // ---- The check ----

  /** The request leaves the input stage, and its ticket the queue. */
  ghost predicate TurnedAway(s: System, t: System, k: Kind)
    requires Of(s, k).stage.Checking?
  {
    var x := Of(s, k).stage.item;
    t == With(s, k, Of(s, k).(stage := Waiting)).(tickets := t.tickets)
    && forall y :: y in t.tickets <==> y in s.tickets && y != x
  }

  predicate BookSides(side: Side) { side in {Buy, BuyMinus, Sell, SellPlus} }

  function SideOf(x: Item): Side {
    match x.request
    case New(info) => info.order.side
    case CancelOf(_, side, _) => side
  }

  /** What the check does with a new order, in every reachable state: turned away unless it is complete; turned away if it
      is of type Limit on a side the book does not know; pushed to the worker if it is Limit and fine; and with another type
      it loses its ticket but goes on. */
  lemma OrderChecked(actions: seq<Action>, s: System)
    requires Reaches(START, actions, s) && s.orders.stage.Checking?
    ensures var x, t := s.orders.stage.item, Do(s, Check(NewOrders));
      if !x.complete || (x.limit && !BookSides(SideOf(x))) then TurnedAway(s, t, NewOrders)
      else if x.limit then t == s.(orders := s.orders.(stage := Waiting, queue := s.orders.queue + [x]))
      else
        && t == s.(orders := s.orders.(stage := Reported(x)), tickets := t.tickets)
        && forall y :: y in t.tickets <==> y in s.tickets && y != x
  {
    hide Reaches, START, Inv, TurnedAway, Do;
    StartInv();
    ReachInv(START, actions, s);
    CheckFinishes(s, NewOrders);
    CheckedIsOrder(s);
    OrderDecided(s);
  }

  lemma CheckedIsOrder(s: System)
    requires Inv(s) && s.orders.stage.Checking?
    ensures s.orders.stage.item.request.New?
  {
    hide Held, Folded, Subsequence, Queued, Only, Limits;
    assert Of(s, NewOrders) == s.orders;
    ReadLine(s, NewOrders);
    assert s.orders.stage.item == Coming(s, NewOrders)[0];
    ItemOf(s, NewOrders, s.orders.stage.item);
  }

  lemma OrderDecided(s: System)
    requires s.orders.stage.Checking?
    requires var id := s.orders.stage.item.id; Finish(Finish(s.tickets, id), id) == Finish(s.tickets, id)
    requires forall y :: y in Finish(s.tickets, s.orders.stage.item.id) <==> y in s.tickets && y != s.orders.stage.item
    ensures var x, t := s.orders.stage.item, Do(s, Check(NewOrders));
      if !x.complete || (x.limit && !BookSides(SideOf(x))) then TurnedAway(s, t, NewOrders)
      else if x.limit then t == s.(orders := s.orders.(stage := Waiting, queue := s.orders.queue + [x]))
      else
        && t == s.(orders := s.orders.(stage := Reported(x)), tickets := t.tickets)
        && forall y :: y in t.tickets <==> y in s.tickets && y != x
  {
    hide Finish;
  }

  /** Erasing by id takes the one ticket of the request in check. */
  lemma CheckFinishes(s: System, k: Kind)
    requires Inv(s) && Of(s, k).stage.Checking?
    ensures var x := Of(s, k).stage.item;
      && Finish(s.tickets, x.id) == Finish(Finish(s.tickets, x.id), x.id)
      && x in s.tickets && forall y :: y in Finish(s.tickets, x.id) <==> y in s.tickets && y != x
  {
    hide Held, Folded, Subsequence, Queued, Finish, Without, Only, Limits;
    var x := Of(s, k).stage.item;
    ReadLine(s, k);
    ReadSound(s, k);
    FinishTwice(s.tickets, x.id);
    WithoutMembers(s.tickets, x.id);
    assert x == Coming(s, k)[0];
    ItemOf(s, k, x);
    OnlyMembers(s.tickets, k);
    assert x in Limits(Through(Of(s, k))) + Coming(s, k);
    forall y | y in s.tickets ensures y.id == x.id <==> y == x {
      if y.id == x.id { SameId(s.issued, x, y); }
    }
  }

  /** What the check does with a cancel: turned away unless it is complete; ends the stage if the book does not know the
      side; and otherwise goes on if and only if an order with the id rests that was sent in with exactly that side. */
  lemma CancelChecked(actions: seq<Action>, s: System)
    requires Reaches(START, actions, s) && s.cancels.stage.Checking?
    ensures var x, t := s.cancels.stage.item, Do(s, Check(Cancels));
      if !x.complete then TurnedAway(s, t, Cancels)
      else if !BookSides(SideOf(x)) then t == s.(cancels := s.cancels.(stage := Crashed(x)))
      else
        && x.request.CancelOf?
        && if RestsAs(s.book, x.request.id, x.request.side) then t == s.(cancels := s.cancels.(stage := ReadingFront(x)))
           else TurnedAway(s, t, Cancels)
  {
    hide Reaches, START, Inv, RestsAs, BookOk, HasOn, GetOrder, TurnedAway, Do;
    StartInv();
    ReachInv(START, actions, s);
    CheckFinishes(s, Cancels);
    BookIsOk(actions, s);
    CheckedIsCancel(s);
    var r := s.cancels.stage.item.request;
    FoundIffRests(s.book, r.id, r.side);
    CancelDecided(s);
  }

  lemma BookIsOk(actions: seq<Action>, s: System)
    requires Reaches(START, actions, s)
    ensures BookOk(s.book)
  {
    hide *;
    TicketSafety.Serialised(actions, s);
  }

  lemma CancelDecided(s: System)
    requires s.cancels.stage.Checking? && s.cancels.stage.item.request.CancelOf?
    requires forall y :: y in Finish(s.tickets, s.cancels.stage.item.id) <==> y in s.tickets && y != s.cancels.stage.item
    requires var r := s.cancels.stage.item.request;
      PreCheck(s.book, r) <==> RestsAs(s.book, r.id, r.side)
    ensures var x, t := s.cancels.stage.item, Do(s, Check(Cancels));
      if !x.complete then TurnedAway(s, t, Cancels)
      else if !BookSides(SideOf(x)) then t == s.(cancels := s.cancels.(stage := Crashed(x)))
      else if RestsAs(s.book, x.request.id, x.request.side) then t == s.(cancels := s.cancels.(stage := ReadingFront(x)))
      else TurnedAway(s, t, Cancels)
  {
    hide Finish, PreCheck, RestsAs;
  }

  lemma CheckedIsCancel(s: System)
    requires Inv(s) && s.cancels.stage.Checking?
    ensures s.cancels.stage.item.request.CancelOf?
  {
    hide Held, Folded, Subsequence, Queued, Only, Limits;
    assert Of(s, Cancels) == s.cancels;
    ReadLine(s, Cancels);
    assert s.cancels.stage.item == Coming(s, Cancels)[0];
    ItemOf(s, Cancels, s.cancels.stage.item);
  }

  /** And a request that went on after the check is pushed to its worker, but for an order of another type on a side the
      book does not know. */
  lemma Forwards(actions: seq<Action>, s: System, k: Kind)
    requires Reaches(START, actions, s) && Enabled(s, Forward(k))
    ensures var p, x, t := Of(s, k), Of(s, k).stage.item, Do(s, Forward(k));
      t == With(s, k, p.(stage := Waiting,
                         queue := if BookSides(SideOf(x)) then p.queue + [x] else p.queue))
  {
    hide Reaches, START, Queued, Held, Folded, Subsequence, Finish;
    StartInv();
    ReachInv(START, actions, s);
    ReadLine(s, k);
    if Of(s, k).stage.Reported? { ReportedHasNone(s, k); }
  }

  // ---- What is turned away is gone ----

  function Line(s: System, k: Kind): seq<Item> { Through(Of(s, k)) + Coming(s, k) }

  ghost predicate Lost(s: System, x: Item) {
    x in s.issued && x !in Line(s, x.kind) && x !in s.executed
  }

  lemma TurnedAwayIsLost(s: System, k: Kind)
    requires Inv(s) && Of(s, k).stage.Checking? && TurnedAway(s, Do(s, Check(k)), k)
    ensures Lost(Do(s, Check(k)), Of(s, k).stage.item)
  {
    hide Held, Folded, Subsequence, Queued, Only, Limits, Do, Line, TurnedAway;
    var x, p, t := Of(s, k).stage.item, Of(s, k), Do(s, Check(k));
    ReadLine(s, k);
    ReadSound(s, k);
    assert x == Coming(s, k)[0];
    ItemOf(s, k, x);
    LineWithout(s, t, k);
    assert Through(p) + Coming(s, k) == Through(p) + ([x] + (p.input + InRouter(s, k)));
    OnceOnly(Through(p), x, p.input + InRouter(s, k));
    UncheckedWaits(s, k);
  }

  lemma LineWithout(s: System, t: System, k: Kind)
    requires Of(s, k).stage.Checking? && TurnedAway(s, t, k)
    ensures Line(t, k) == Through(Of(s, k)) + (Of(s, k).input + InRouter(s, k))
    ensures t.issued == s.issued && t.executed == s.executed
    ensures Coming(s, k) == [Of(s, k).stage.item] + (Of(s, k).input + InRouter(s, k))
  {
    var p := Of(s, k);
    assert Through(Of(t, k)) == Through(p);
    assert Coming(t, k) == p.input + InRouter(s, k);
  }

  lemma OnceOnly(a: seq<Item>, x: Item, b: seq<Item>)
    requires DistinctIds(a + ([x] + b))
    ensures x !in a + b
  {
    var all := a + ([x] + b);
    assert all[|a|] == x;
    forall i | 0 <= i < |a + b| ensures (a + b)[i] != x {
      if i < |a| { assert all[i] == (a + b)[i]; } else { assert all[i + 1] == (a + b)[i]; }
    }
  }

  /** A request in check has not been executed. */
  lemma UncheckedWaits(s: System, k: Kind)
    requires Inv(s) && Of(s, k).stage.Checking?
    ensures Of(s, k).stage.item !in s.executed
  {
    hide Folded, Subsequence, LockMeans, Queued, DistinctIds, Finish;
    var x := Of(s, k).stage.item;
    CheckFinishes(s, k);
    IssuedDistinct(s);
    SubsequenceDistinct(s.executed + Pending(s), s.issued);
    assert FrontHeld(s, NewOrders) && FrontHeld(s, Cancels);
    assert Of(s, NewOrders) == s.orders && Of(s, Cancels) == s.cancels;
    if !s.orders.worker.Idle? { UncheckedIsNotHeld(s, k, NewOrders); }
    if !s.cancels.worker.Idle? { UncheckedIsNotHeld(s, k, Cancels); }
    InOneOnly(s.executed, Pending(s), x);
  }

  /** No step puts a request into a pipeline but the issue of its ticket. */
  lemma LineShrinks(s: System, a: Action, k: Kind)
    requires Enabled(s, a)
    ensures forall y :: y in Line(Do(s, a), k) ==> y in Line(s, k) || (a.Issue? && y == a.item)
  {
    if Busy(a) {
      hide Do, Enabled;
      BusyFrame(s, a);
      assert a.kind == k || k == Other(a.kind);
    } else if a.Check? || a.Forward? {
      CheckShrinks(s, a, k);
    } else {
      MoveShrinks(s, a, k);
    }
  }

  /** Where in its pipeline a request is. */
  predicate InPipe(p: Pipe, y: Item) {
    y in InWorker(p.worker) || y in p.queue || y in InStage(p.stage) || y in InCheck(p.stage) || y in p.input
  }

  lemma LineMembers(s: System, k: Kind)
    ensures forall y :: y in Line(s, k) <==> InPipe(Of(s, k), y) || y in InRouter(s, k)
  {
  }

  lemma CheckShrinks(s: System, a: Action, k: Kind)
    requires Enabled(s, a) && (a.Check? || a.Forward?)
    ensures forall y :: y in Line(Do(s, a), k) ==> y in Line(s, k)
  {
    LineMembers(s, k);
    LineMembers(Do(s, a), k);
    CheckPipe(s, a, k);
    hide Do, Line, InPipe;
  }

  /** The check and what follows it move the request within its pipeline, or out of it. */
  lemma CheckPipe(s: System, a: Action, k: Kind)
    requires Enabled(s, a) && (a.Check? || a.Forward?)
    ensures Do(s, a).router == s.router
    ensures forall y :: InPipe(Of(Do(s, a), k), y) ==> InPipe(Of(s, k), y)
  {
    hide PreCheck, Finish, InPipe;
    var p, q := Of(s, a.kind), Of(Do(s, a), a.kind);
    if k == a.kind {
      assert q.worker == p.worker && q.input == p.input;
      assert q.queue == p.queue || q.queue == p.queue + [p.stage.item];
      assert q.stage.Waiting? || q.stage.item == p.stage.item;
      PipeMoved(p, q);
    } else {
      assert Of(Do(s, a), k) == Of(s, k);
    }
  }

  lemma PipeMoved(p: Pipe, q: Pipe)
    requires q.worker == p.worker && q.input == p.input && !p.stage.Waiting?
    requires q.queue == p.queue || q.queue == p.queue + [p.stage.item]
    requires q.stage.Waiting? || q.stage.item == p.stage.item
    ensures forall y :: InPipe(q, y) ==> InPipe(p, y)
  {
  }

  lemma MoveShrinks(s: System, a: Action, k: Kind)
    requires Enabled(s, a) && !Busy(a) && !a.Check? && !a.Forward?
    ensures forall y :: y in Line(Do(s, a), k) ==> y in Line(s, k) || (a.Issue? && y == a.item)
  {
    LineMembers(s, k);
    LineMembers(Do(s, a), k);
    hide Line;
    if a.Issue? || a.Enqueue? || a.kind == k {
      MovePipe(s, a, k);
    } else {
      assert Of(Do(s, a), k) == Of(s, k);
    }
  }

  lemma MovePipe(s: System, a: Action, k: Kind)
    requires Enabled(s, a) && (a.Issue? || a.Enqueue? || ((a.Take? || a.Pull? || a.Pop? || a.Leave?) && a.kind == k))
    ensures forall y :: InPipe(Of(Do(s, a), k), y) || y in InRouter(Do(s, a), k) ==>
      InPipe(Of(s, k), y) || y in InRouter(s, k) || (a.Issue? && y == a.item)
  {
  }

  lemma LostStep(s: System, a: Action, x: Item)
    requires Inv(s) && Enabled(s, a) && Lost(s, x)
    ensures Lost(Do(s, a), x)
  {
    hide Queued, Held, Folded, Subsequence, Pending, Do, Line;
    LineShrinks(s, a, x.kind);
    ExecutedAfter(s, a);
    IssuedAfter(s, a);
    if Do(s, a).executed != s.executed {
      HolderItem(s, a.kind);
      HolderInLine(s, a.kind);
    }
  }

  lemma HolderInLine(s: System, k: Kind)
    requires !Of(s, k).worker.Idle?
    ensures Of(s, k).worker.item in Line(s, k)
  {
    assert Through(Of(s, k))[0] == Of(s, k).worker.item;
  }

  lemma LostHasNoTicket(s: System, x: Item)
    requires Inv(s) && Lost(s, x)
    ensures x !in s.tickets
  {
    hide Queued, Held, Folded, Subsequence, Only, Limits;
    ReadLine(s, x.kind);
    OnlyMembers(s.tickets, x.kind);
    LimitsMembers(Through(Of(s, x.kind)));
    var p, coming := Of(s, x.kind), Coming(s, x.kind);
    assert forall y :: y in Limits(Through(p)) + coming ==> y in Line(s, x.kind);
  }

  lemma {:induction false} LostStays(s: System, x: Item, actions: seq<Action>, t: System)
    requires Inv(s) && Lost(s, x) && Reaches(s, actions, t)
    ensures x !in t.tickets && x !in t.executed
    decreases |actions|
  {
    hide Inv, Do, Enabled, Line;
    if actions == [] {
      LostHasNoTicket(s, x);
    } else {
      StepInv(s, actions[0]);
      LostStep(s, actions[0], x);
      LostStays(Do(s, actions[0]), x, actions[1..], t);
    }
  }

  /** A request that the check turns away never has a ticket again and is executed in no run on from there. */
  lemma TurnedAwayForever(actions: seq<Action>, s: System, k: Kind, more: seq<Action>, t: System)
    requires Reaches(START, actions, s) && Of(s, k).stage.Checking? && TurnedAway(s, Do(s, Check(k)), k)
    requires Reaches(Do(s, Check(k)), more, t)
    ensures Of(s, k).stage.item !in t.tickets && Of(s, k).stage.item !in t.executed
  {
    hide Reaches, START, Inv, Do, TurnedAway, Lost;
    StartInv();
    ReachInv(START, actions, s);
    TurnedAwayIsLost(s, k);
    StepInv(s, Check(k));
    LostStays(Do(s, Check(k)), Of(s, k).stage.item, more, t);
  }

  // ---- What is executed ----

  predicate Fine(x: Item) { x.complete && x.limit && BookSides(SideOf(x)) }

  ghost predicate AllFine(s: System) { forall x :: x in s.executed ==> Fine(x) }

  lemma HolderIsFine(s: System, k: Kind)
    requires Queued(s) && FrontHeld(s, k) && PastFront(Of(s, k).worker)
    ensures Fine(Of(s, k).worker.item)
  {
    hide Queued, Only, Limits, Subsequence;
    HolderIsLimit(s, k);
    WorkerSupported(s, k);
    ReadLine(s, k);
    ReadSound(s, k);
    assert Of(s, k).worker.item == Through(Of(s, k))[0];
  }

  lemma {:induction false} ReachFine(s: System, actions: seq<Action>, t: System)
    requires Inv(s) && AllFine(s) && Reaches(s, actions, t)
    ensures AllFine(t)
    decreases |actions|
  {
    hide Queued, Folded, Subsequence, Pending, Do, Fine, LockMeans;
    if actions != [] {
      var a := actions[0];
      ExecutedAfter(s, a);
      if Do(s, a).executed != s.executed {
        assert FrontHeld(s, a.kind);
        HolderIsFine(s, a.kind);
      }
      StepInv(s, a);
      ReachFine(Do(s, a), actions[1..], t);
    }
  }

  /** In every run only complete requests of type Limit on a side the book knows are executed. */
  lemma OnlyFineExecute(actions: seq<Action>, s: System)
    requires Reaches(START, actions, s)
    ensures forall x :: x in s.executed ==> Fine(x)
  {
    hide Reaches, Inv, Fine;
    StartInv();
    assert START.executed == [];
    hide START;
    ReachFine(START, actions, s);
  }
}

/** Progress: when the ticket queue can be emptied, and how. */
module TicketProgress {
  import opened Core
  import opened Tickets
  import opened TicketLists
  import opened TicketLine
  import opened TicketInvariant
  import opened TicketFate
  import opened TicketStranded

  // ---- How far requests are from done ----

  predicate AtFront(tickets: seq<Item>, x: Item) { tickets != [] && tickets[0].id == x.id }

  function WorkerWork(tickets: seq<Item>, w: Worker): nat {
    match w
    case Idle => 0
    case SpinEmpty(_) => 8
    case SpinFront(x) => if AtFront(tickets, x) then 7 else 8
    case SpinLock(_) => 6
    case SetLock(_) => 5
    case Deciding(_) => 4
    case Acting(_) => 3
    case Clearing(_) => 2
    case Popping(_) => 1
  }

  function StageWork(st: Stage): nat {
    match st
    case Waiting => 0
    case Checking(_) => 11
    case Left(_) => 9
    case _ => 10
  }

  function PipeWork(tickets: seq<Item>, p: Pipe): nat {
    12 * |p.input| + StageWork(p.stage) + 9 * |p.queue| + WorkerWork(tickets, p.worker)
  }

  /** The steps still ahead of the requests in the system. */
  function Work(s: System): nat {
    (if s.router.Some? then 13 else 0) + PipeWork(s.tickets, s.orders) + PipeWork(s.tickets, s.cancels)
  }

  /** A turn of the spin loop of a worker that is not at the front: such a turn may come to nothing. */
  ghost predicate IdleSpin(s: System, a: Action)
    requires Enabled(s, a)
  {
    a.Spin? && !AtFront(s.tickets, Of(s, a.kind).worker.item)
  }

  lemma RouterWork(s: System, a: Action)
    requires Enabled(s, a) && (a.Enqueue? || a.Take? || a.Pull? || a.Leave?)
    ensures Work(Do(s, a)) < Work(s)
  {
  }

  lemma CheckWork(s: System, k: Kind)
    requires Queued(s) && Held(s) && Enabled(s, Check(k))
    ensures Work(Do(s, Check(k))) < Work(s)
  {
    hide Queued, Held, Do, Without, AtFront;
    var v := CheckJudges(s, k);
    var t := Do(s, Check(k));
    var x := Of(s, k).stage.item;
    assert |Of(t, k).queue| <= |Of(s, k).queue| + 1;
    FrontWork(s, k, NewOrders);
    FrontWork(s, k, Cancels);
  }

  /** Withdrawing the ticket of the request in check changes no worker's place at the front to its loss. */
  lemma FrontWork(s: System, k: Kind, j: Kind)
    requires Queued(s) && Of(s, k).stage.Checking?
    ensures WorkerWork(Without(s.tickets, Of(s, k).stage.item.id), Of(s, j).worker) <= WorkerWork(s.tickets, Of(s, j).worker)
  {
    hide Queued, Without;
    var id := Of(s, k).stage.item.id;
    if !Of(s, j).worker.Idle? && AtFront(s.tickets, Of(s, j).worker.item) {
      UncheckedIsNotHeld(s, k, j);
      FrontKept(s.tickets, id);
    }
  }

  lemma ForwardWork(s: System, k: Kind)
    requires Queued(s) && Enabled(s, Forward(k))
    ensures Work(Do(s, Forward(k))) < Work(s)
  {
    hide Queued, Finish, AtFront;
    if Of(s, k).stage.Reported? { ReportedHasNone(s, k); }
  }

  lemma SpinWork(s: System, k: Kind)
    requires Queued(s) && Held(s) && Enabled(s, Spin(k))
    ensures if IdleSpin(s, Spin(k)) then Work(Do(s, Spin(k))) == Work(s) else Work(Do(s, Spin(k))) < Work(s)
  {
    hide Queued;
    OneHolder(s);
    assert FrontHeld(s, k);
  }

  lemma WorkerWorks(s: System, a: Action)
    requires Enabled(s, a) && (a.Lock? || a.Decide? || a.Act? || a.Clear?)
    ensures Work(Do(s, a)) < Work(s)
  {
    BusyFrame(s, a);
    WorkerAdvances(s, a);
    hide Do;
  }

  lemma WorkerAdvances(s: System, a: Action)
    requires Enabled(s, a) && (a.Lock? || a.Decide? || a.Act? || a.Clear?)
    ensures WorkerWork(s.tickets, Of(Do(s, a), a.kind).worker) < WorkerWork(s.tickets, Of(s, a.kind).worker)
  {
    hide Book.Accepts, Book.Apply, Book.OwnHalf, AtFront;
  }

  lemma PopWorks(s: System, k: Kind)
    requires Queued(s) && Held(s) && Enabled(s, Pop(k))
    ensures Work(Do(s, Pop(k))) < Work(s)
  {
    hide Queued;
    var o := Other(k);
    assert FrontHeld(s, k);
    if !Of(s, o).worker.Idle? {
      HolderItem(s, k);
      HolderItem(s, o);
      ReadIssued(s, k);
      SameIds(s.issued, Of(s, k).worker.item, Of(s, o).worker.item);
    }
  }

  lemma SameIds(issued: seq<Item>, x: Item, y: Item)
    requires DistinctIds(issued) && x in issued && y in issued
    ensures x.id == y.id ==> x == y
  {
    if x.id == y.id { SameId(issued, x, y); }
  }

  lemma ReadIssued(s: System, k: Kind)
    requires Queued(s)
    ensures DistinctIds(s.issued)
  {
    hide Queued;
    ReadLine(s, k);
  }

  /** Every step but the issue of a ticket brings the requests nearer to done, except for the turns of the spin loop
      of a worker that is not at the front, which at least lose nothing. */
  lemma StepWorks(s: System, a: Action)
    requires Inv(s) && Enabled(s, a) && !a.Issue?
    ensures if IdleSpin(s, a) then Work(Do(s, a)) == Work(s) else Work(Do(s, a)) < Work(s)
  {
    hide Queued, Held, Folded, Subsequence, Pending, Do, Enabled, Work, AtFront;
    match a {
      case Check(k) => CheckWork(s, k);
      case Forward(k) => ForwardWork(s, k);
      case Spin(k) => SpinWork(s, k);
      case Enqueue => RouterWork(s, a);
      case Take(_) => RouterWork(s, a);
      case Pull(_) => RouterWork(s, a);
      case Leave(_) => RouterWork(s, a);
      case Pop(k) => PopWorks(s, k);
      case _ => WorkerWorks(s, a);
    }
  }

  // ---- The next step of the front ticket's owner ----

  /** A request that can never be executed was issued. */
  ghost predicate Jammed(issued: seq<Item>) { exists f :: f in issued && Blocked(issued, f) }

  function WorkerStep(w: Worker, k: Kind): Action
    requires !w.Idle?
  {
    match w
    case SetLock(_) => Lock(k)
    case Deciding(_) => Decide(k)
    case Acting(_) => Act(k)
    case Clearing(_) => Clear(k)
    case Popping(_) => Pop(k)
    case _ => Spin(k)
  }

  function StageStep(p: Pipe, k: Kind): Action {
    match p.stage
    case Checking(_) => Check(k)
    case Waiting => if p.input != [] then Take(k) else Enqueue
    case Crashed(_) => Leave(k)
    case _ => Forward(k)
  }

  predicate BusyWithLimit(p: Pipe) { !p.worker.Idle? && p.worker.item.limit }

  predicate LimitNext(p: Pipe) { p.worker.Idle? && p.queue != [] && p.queue[0].limit }

  /** The step that brings the front ticket's request on. */
  function FrontStep(s: System): Action
    requires s.tickets != []
  {
    var k := s.tickets[0].kind;
    var p := Of(s, k);
    if BusyWithLimit(p) then WorkerStep(p.worker, k)
    else if LimitNext(p) then Pull(k)
    else StageStep(p, k)
  }

  /** The front ticket is the first of its pipeline. */
  lemma FrontFirst(s: System)
    requires Queued(s) && s.tickets != []
    ensures var k := s.tickets[0].kind; var line := Limits(Through(Of(s, k))) + Coming(s, k);
      line != [] && line[0] == s.tickets[0]
  {
    hide Queued, Limits, Through, Coming;
    ReadLine(s, s.tickets[0].kind);
  }

  /** A worker busy with a Limit request, or about to take one, serves the front ticket of its pipeline. */
  lemma FrontIsServed(s: System)
    requires Queued(s) && s.tickets != []
    ensures var p := Of(s, s.tickets[0].kind);
      && (BusyWithLimit(p) ==> p.worker.item == s.tickets[0])
      && (LimitNext(p) ==> p.queue[0] == s.tickets[0])
  {
    hide Queued, Coming;
    var p := Of(s, s.tickets[0].kind);
    FrontFirst(s);
    if BusyWithLimit(p) || LimitNext(p) {
      var x := Through(p)[0];
      assert Through(p) == [x] + Through(p)[1..];
      LimitsAppend([x], Through(p)[1..]);
      LimitsSingle(x);
    }
  }

  /** In a pipeline whose next request is not of type Limit, every Limit request behind it is blocked. */
  lemma BlockedBehind(s: System, k: Kind, x: Item)
    requires Queued(s)
    requires !BusyWithLimit(Of(s, k)) && !LimitNext(Of(s, k))
    requires x in InWorker(Of(s, k).worker) + Of(s, k).queue && x.limit
    ensures Blocked(s.issued, x)
  {
    hide Queued, Only, Limits, Subsequence, Earlier;
    var p := Of(s, k);
    var ready := InWorker(p.worker) + p.queue;
    ReadLine(s, k);
    ReadSound(s, k);
    var y := ready[0];
    assert Through(p) == ready + InStage(p.stage);
    assert !y.limit;
    assert forall z :: z in ready ==> z in Through(p);
    ItemOf(s, k, x);
    ItemOf(s, k, y);
    var j :| 0 <= j < |ready| && ready[j] == x;
    var all := Through(p) + Coming(s, k);
    assert all[0] == y && all[j] == x;
    SubsequenceIndex(all, s.issued, 0, j);
    assert y.Ticketless() && x.Good();
  }

  lemma StageStepEnabled(s: System)
    requires Queued(s) && s.tickets != [] && !Blocked(s.issued, s.tickets[0])
    requires var p := Of(s, s.tickets[0].kind); !BusyWithLimit(p) && !LimitNext(p)
    ensures var k := s.tickets[0].kind; Enabled(s, StageStep(Of(s, k), k)) && !Ended(Of(s, k).stage)
  {
    hide Queued, Limits;
    var k := s.tickets[0].kind;
    var p := Of(s, k);
    var x := s.tickets[0];
    FrontFirst(s);
    if Ended(p.stage) {
      NothingThrough(s, k);
    } else if p.stage.Waiting? && p.input == [] && InRouter(s, k) == [] {
      assert Coming(s, k) == [];
      LimitsMembers(Through(p));
      assert x in Limits(Through(p));
      assert Through(p) == InWorker(p.worker) + p.queue;
      BlockedBehind(s, k, x);
    }
  }

  /** A crashed input stage whose worker has nothing left: the first ticket of its pipeline is the one it crashed on. */
  lemma NothingThrough(s: System, k: Kind)
    requires Queued(s) && Ended(Of(s, k).stage) && !BusyWithLimit(Of(s, k)) && !LimitNext(Of(s, k))
    ensures var line := Limits(Through(Of(s, k))) + Coming(s, k);
      line != [] && line[0] == Of(s, k).stage.item && line[0].Crasher()
  {
    hide Queued, Only, Subsequence;
    var p := Of(s, k);
    ReadLine(s, k);
    ReadSound(s, k);
    if Through(p) != [] {
      var x := Through(p)[0];
      ItemOf(s, k, x);
    }
    assert Coming(s, k)[0] == p.stage.item;
  }

  /** Absence of deadlock: as long as there is a ticket whose request is neither blocked nor stranded, the owner of the
      front one has a step, and the step brings its request on. */
  lemma FrontCanMove(s: System)
    requires Inv(s) && s.tickets != [] && !Blocked(s.issued, s.tickets[0]) && !Stranded(s, s.tickets[0])
    ensures var a := FrontStep(s);
      Enabled(s, a) && !a.Issue? && !a.Leave? && Work(Do(s, a)) < Work(s)
  {
    hide Queued, Held, Folded, Subsequence, Pending, Work, Do, Blocked;
    var k := s.tickets[0].kind;
    FrontIsServed(s);
    if !BusyWithLimit(Of(s, k)) && !LimitNext(Of(s, k)) { StageStepEnabled(s); }
    StepWorks(s, FrontStep(s));
  }

  lemma IssuedStays(s: System, a: Action)
    requires Inv(s) && Enabled(s, a) && !a.Issue?
    ensures Do(s, a).issued == s.issued
  {
    hide Inv;
    IssuedAfter(s, a);
  }

  predicate NoArrivals(actions: seq<Action>) { forall a :: a in actions ==> !a.Issue? }

  ghost predicate Stopped(s: System, f: Item) { Blocked(s.issued, f) || Stranded(s, f) }

  /** With no new arrivals the front steps empty the queue, or bring a blocked or stranded request to its front; they
      strand no other request. */
  lemma {:induction false} Drain(s: System) returns (actions: seq<Action>, t: System)
    requires Inv(s)
    ensures Reaches(s, actions, t) && t.issued == s.issued && |actions| <= Work(s) && NoArrivals(actions)
    ensures t.tickets == [] || Stopped(t, t.tickets[0])
    ensures forall f :: Stranded(t, f) ==> Stranded(s, f)
    decreases Work(s)
  {
    hide Inv, Blocked, Stranded, Work, Do, Enabled, FrontStep;
    if s.tickets == [] || Stopped(s, s.tickets[0]) {
      actions, t := [], s;
    } else {
      var a := FrontStep(s);
      FrontCanMove(s);
      StepInv(s, a);
      IssuedStays(s, a);
      var rest, end := Drain(Do(s, a));
      actions, t := [a] + rest, end;
      assert actions[1..] == rest;
      forall f | Stranded(t, f) ensures Stranded(s, f) { StrandedStep(s, a, f); }
    }
  }

  lemma {:induction false} NoIssueSameIssued(s: System, actions: seq<Action>, t: System)
    requires Inv(s) && Reaches(s, actions, t) && NoArrivals(actions)
    ensures t.issued == s.issued
    decreases |actions|
  {
    hide Inv, Do, Enabled;
    if actions != [] {
      StepInv(s, actions[0]);
      IssuedStays(s, actions[0]);
      NoIssueSameIssued(Do(s, actions[0]), actions[1..], t);
    }
  }

  ghost predicate CanDrain(s: System) {
    exists actions, t :: Reaches(s, actions, t) && t.tickets == [] && NoArrivals(actions)
  }

  lemma {:induction false} ReachesTrans(s: System, a: seq<Action>, t: System, b: seq<Action>, u: System)
    requires Reaches(s, a, t) && Reaches(t, b, u)
    ensures Reaches(s, a + b, u)
    decreases |a|
  {
    hide Do, Enabled;
    if a == [] {
      assert a + b == b;
    } else {
      assert (a + b)[1..] == a[1..] + b;
      ReachesTrans(Do(s, a[0]), a[1..], t, b, u);
    }
  }

  /** The exact condition for progress: in a reachable state the ticket queue can be emptied without new arrivals if and
      only if no blocked request was issued, that is, no complete cancel on an unsupported side, and no complete Limit
      order behind an otherwise fine order of another type. */
  lemma DrainsIffNotJammed(before: seq<Action>, s: System)
    requires Reaches(START, before, s)
    ensures CanDrain(s) <==> !Jammed(s.issued)
  {
    hide Reaches, START, Inv, Blocked;
    StartInv();
    ReachInv(START, before, s);
    if !Jammed(s.issued) {
      var actions, t := Drain(s);
      ReachInv(s, actions, t);
      FrontIssued(t);
      if t.tickets != [] && Stranded(t, t.tickets[0]) { StrandedJams(t, t.tickets[0]); }
    }
    if Jammed(s.issued) {
      var f :| f in s.issued && Blocked(s.issued, f);
      forall actions, t | Reaches(s, actions, t) && NoArrivals(actions) ensures t.tickets != [] {
        ReachesTrans(START, before, s, actions, t);
        NoIssueSameIssued(s, actions, t);
        BlockedStays(before + actions, t, f);
      }
    }
  }

  /** Requests are stranded only where a blocked one was issued. */
  lemma StrandedJams(s: System, f: Item)
    requires Inv(s) && Stranded(s, f)
    ensures Jammed(s.issued)
  {
    hide Queued, Held, Folded, Subsequence;
    StrandedIs(s, f);
    var y: Item :| y in s.issued && y.Crasher();
    assert Blocked(s.issued, y);
  }

  lemma FrontIssued(s: System)
    requires Inv(s)
    ensures s.tickets != [] ==> s.tickets[0] in s.issued
  {
    hide Queued, Held, Folded;
    ReadLine(s, NewOrders);
    ReadSound(s, NewOrders);
  }

  // ---- Which orders can still be executed ----

  ghost predicate CanExecute(s: System, x: Item) {
    exists actions, t :: Reaches(s, actions, t) && NoArrivals(actions) && x in t.executed
  }

  /** Something that stops every order behind it was issued before x. */
  ghost predicate StoppedBefore(s: System, x: Item) {
    exists y: Item :: (y.Ticketless() || y.Crasher() || Stranded(s, y)) && Earlier(s.issued, y, x)
  }

  lemma EarlierTrans(issued: seq<Item>, x: Item, y: Item, z: Item)
    requires DistinctIds(issued) && Earlier(issued, x, y) && Earlier(issued, y, z)
    ensures Earlier(issued, x, z)
  {
    var i, j :| 0 <= i < j < |issued| && issued[i] == x && issued[j] == y;
    var p, q :| 0 <= p < q < |issued| && issued[p] == y && issued[q] == z;
    assert j == p;
  }

  /** The front ticket, if its request has not been executed, is the earliest there is. */
  lemma FrontIsEarliest(s: System, x: Item)
    requires Inv(s) && Kept(s) && x in s.tickets && s.tickets[0] !in s.executed
    ensures x == s.tickets[0] || Earlier(s.issued, s.tickets[0], x)
  {
    hide Queued, Folded, Subsequence, Earlier;
    assert FrontHeld(s, NewOrders) && FrontHeld(s, Cancels);
    assert Of(s, NewOrders) == s.orders && Of(s, Cancels) == s.cancels;
    var j :| 0 <= j < |s.tickets| && s.tickets[j] == x;
    if j > 0 {
      var all, n := s.executed + s.tickets, |s.executed|;
      assert all[n] == s.tickets[0] && all[n + j] == x;
      SubsequenceIndex(all, s.issued, n, n + j);
    }
  }

  /** What is executed, exactly: a complete Limit order on a supported side can be executed if and only if there was
      issued before it no otherwise fine order of another type, no complete cancel on an unsupported side, and no cancel
      that such a crash has left behind. */
  lemma ExecutesIffNotStopped(before: seq<Action>, s: System, x: Item)
    requires Reaches(START, before, s) && x in s.issued && x.Good()
    ensures CanExecute(s, x) <==> !StoppedBefore(s, x)
  {
    hide Reaches, START, Inv, Earlier, Starved, Stranded;
    StartFates();
    ReachFates(START, before, s);
    if StoppedBefore(s, x) {
      forall actions, t | Reaches(s, actions, t) && NoArrivals(actions) ensures x !in t.executed {
        NoIssueSameIssued(s, actions, t);
        StoppedNotExecuted(before, s, actions, t, x);
      }
    } else {
      var actions, t := Drain(s);
      ReachesTrans(START, before, s, actions, t);
      ReachFates(START, before + actions, t);
      if x in t.tickets {
        FrontStopped(before + actions, t, x);
      }
    }
  }

  lemma StoppedNotExecuted(before: seq<Action>, s: System, actions: seq<Action>, t: System, x: Item)
    requires Reaches(START, before, s) && Reaches(s, actions, t) && t.issued == s.issued
    requires x.Good() && StoppedBefore(s, x)
    ensures x !in t.executed
  {
    hide Reaches, START, Earlier, Stranded, Fates;
    var y: Item :| (y.Ticketless() || y.Crasher() || Stranded(s, y)) && Earlier(s.issued, y, x);
    ReachesTrans(START, before, s, actions, t);
    EarlierMembers(s.issued, y, x);
    if y.Ticketless() {
      TypeStopsOrders(before + actions, t, y, x);
    } else if y.Crasher() {
      CrashStopsMarket(before + actions, t, y);
    } else {
      StartFates();
      ReachFates(START, before, s);
      StrandedStays(s, y, actions, t);
    }
  }

  /** A complete Limit order that waits behind a blocked or stranded front, or is one, was stopped. */
  lemma FrontStopped(actions: seq<Action>, s: System, x: Item)
    requires Reaches(START, actions, s) && x in s.tickets && x.Good() && Stopped(s, s.tickets[0])
    ensures StoppedBefore(s, x)
  {
    hide Reaches, START, Earlier, Inv, Starved, Stranded;
    StartFates();
    ReachFates(START, actions, s);
    var f := s.tickets[0];
    FrontIssued(s);
    FrontWaits(actions, s);
    FrontIsEarliest(s, x);
    IssuedDistinct(s);
    if !f.Crasher() && !Stranded(s, f) {
      var y: Item :| y.Ticketless() && Earlier(s.issued, y, f);
      if x != f { EarlierTrans(s.issued, y, f, x); }
    }
  }

  lemma FrontWaits(actions: seq<Action>, s: System)
    requires Reaches(START, actions, s) && s.tickets != [] && Stopped(s, s.tickets[0])
    ensures s.tickets[0] !in s.executed
    ensures Stranded(s, s.tickets[0]) ==> s.tickets[0].kind == Cancels
  {
    hide Reaches, START, Blocked, Fates, Inv;
    StartFates();
    ReachFates(START, actions, s);
    StartInv();
    ReachInv(START, actions, s);
    FrontIssued(s);
    if Stranded(s, s.tickets[0]) {
      StrandedWaits(s, s.tickets[0]);
      StrandedCancels(s, s.tickets[0]);
    } else {
      BlockedStays(actions, s, s.tickets[0]);
    }
  }

  // ---- Any schedule ----

  /** How many steps of a run are not idle turns of a spin loop. */
  ghost function Productive(s: System, actions: seq<Action>, t: System): nat
    requires Reaches(s, actions, t)
    decreases |actions|
  {
    if actions == [] then 0
    else (if IdleSpin(s, actions[0]) then 0 else 1) + Productive(Do(s, actions[0]), actions[1..], t)
  }

  /** However the threads are scheduled, without new arrivals all but a bounded number of steps are idle turns. */
  lemma {:induction false} AnySchedule(s: System, actions: seq<Action>, t: System)
    requires Inv(s) && Reaches(s, actions, t) && NoArrivals(actions)
    ensures Productive(s, actions, t) + Work(t) <= Work(s)
    decreases |actions|
  {
    hide Inv, Do, Enabled, Work, IdleSpin;
    if actions != [] {
      StepInv(s, actions[0]);
      StepWorks(s, actions[0]);
      AnySchedule(Do(s, actions[0]), actions[1..], t);
    }
  }

  // ---- Fairness is enough ----

  /** No step but the front owner's own changes which ticket is at the front. */
  lemma FrontStays(s: System, a: Action)
    requires Inv(s) && s.tickets != [] && Enabled(s, a) && a != FrontStep(s)
    ensures Do(s, a).tickets != [] && Do(s, a).tickets[0] == s.tickets[0]
  {
    hide Queued, Folded, Subsequence, Pending, Without;
    var k := s.tickets[0].kind;
    FrontIsServed(s);
    if Before(a) {
      hide Held, Do;
      TicketsAfter(s, a);
      if a.Check? && Do(s, a).tickets != s.tickets {
        CheckIsNotFront(s, a.kind);
        FrontKept(s.tickets, Of(s, a.kind).stage.item.id);
      }
    } else if a.Pop? {
      assert FrontHeld(s, a.kind);
      HolderItem(s, a.kind);
      HolderIsLimit(s, a.kind);
    }
  }

  /** Unless it is the front owner's step, a check concerns another ticket than the front one. */
  lemma CheckIsNotFront(s: System, j: Kind)
    requires Queued(s) && s.tickets != [] && Of(s, j).stage.Checking? && Check(j) != FrontStep(s)
    ensures s.tickets[0].id != Of(s, j).stage.item.id
  {
    hide Queued, Only, Limits, Subsequence;
    var k, x := s.tickets[0].kind, Of(s, j).stage.item;
    var p := Of(s, k);
    FrontIsServed(s);
    ReadLine(s, j);
    ReadSound(s, j);
    assert x == Coming(s, j)[0];
    ItemOf(s, j, x);
    if j == k {
      var all := Through(p) + Coming(s, k);
      assert all[|Through(p)|] == x;
      assert BusyWithLimit(p) || LimitNext(p);
      assert all[0] == s.tickets[0];
    } else {
      SameIds(s.issued, x, s.tickets[0]);
    }
  }

  /** The steps of a worker that does not serve the front ticket leave it not serving it. */
  lemma OtherWorkerSteps(s: System, a: Action, k: Kind)
    requires Queued(s) && Held(s) && Enabled(s, a) && !Before(a) && a.kind == k
    requires if BusyWithLimit(Of(s, k)) then a != WorkerStep(Of(s, k).worker, k) else LimitNext(Of(s, k)) ==> a != Pull(k)
    ensures var p, q := Of(s, k), Of(Do(s, a), k);
      && !BusyWithLimit(p) && !LimitNext(p) && !BusyWithLimit(q) && !LimitNext(q)
      && q.stage == p.stage && q.input == p.input
  {
    hide Queued, LockMeans;
    assert FrontHeld(s, k);
    if PastFront(Of(s, k).worker) { HolderIsLimit(s, k); }
  }

  /** A step that is there stays there: whatever the others do, the front owner's step waits to be taken, unless the
      request is stranded before. */
  lemma FrontStepPersists(s: System, a: Action)
    requires Inv(s) && s.tickets != [] && Enabled(s, a) && a != FrontStep(s)
    requires Enabled(s, FrontStep(s))
    ensures var t := Do(s, a);
      && t.tickets != [] && FrontStep(t) == FrontStep(s)
      && (Enabled(t, FrontStep(t)) || Stopped(t, t.tickets[0]))
  {
    hide Inv, FrontStep, Do, Enabled, Stopped;
    SameFrontStep(s, a);
    StepInv(s, a);
    MovesOrStopped(Do(s, a));
  }

  lemma MovesOrStopped(s: System)
    requires Inv(s) && s.tickets != []
    ensures Enabled(s, FrontStep(s)) || Stopped(s, s.tickets[0])
  {
    hide Inv, FrontStep, Enabled, Blocked, Stranded;
    if !Stopped(s, s.tickets[0]) { FrontCanMove(s); }
  }

  lemma SameFrontStep(s: System, a: Action)
    requires Inv(s) && s.tickets != [] && Enabled(s, a) && a != FrontStep(s)
    requires Enabled(s, FrontStep(s))
    ensures Do(s, a).tickets != [] && FrontStep(Do(s, a)) == FrontStep(s)
  {
    hide Queued, Folded, Subsequence, Pending;
    FrontStays(s, a);
    var k := s.tickets[0].kind;
    if Before(a) {
      BeforePersists(s, a, k);
    } else if a.kind == k {
      OtherWorkerSteps(s, a, k);
    } else {
      OtherPipe(s, a, k);
    }
  }

  lemma OtherPipe(s: System, a: Action, k: Kind)
    requires Enabled(s, a) && !Before(a) && a.kind != k
    ensures Of(Do(s, a), k) == Of(s, k)
  {
    hide Book.Accepts, Book.Apply, Book.OwnHalf;
  }

  /** What the router and the input stages do behind a request that is being served, or beside the one step that is
      next. */
  lemma BeforePersists(s: System, a: Action, k: Kind)
    requires Queued(s) && Enabled(s, a) && Before(a)
    ensures var p, q := Of(s, k), Of(Do(s, a), k);
      && q.worker == p.worker && (p.queue != [] ==> q.queue != [] && q.queue[0] == p.queue[0])
      && (Enabled(s, StageStep(p, k)) && a != StageStep(p, k) ==> StageStep(q, k) == StageStep(p, k) && q.queue == p.queue)
  {
    hide Do, Queued;
    if a.Enqueue? {
      EnqueuePersists(s, k);
    } else if a.Issue? || a.kind != k {
      SamePipe(s, a, k);
    } else {
      OwnStage(s, a, k);
    }
  }

  lemma EnqueuePersists(s: System, k: Kind)
    requires Enabled(s, Enqueue)
    ensures var p, q := Of(s, k), Of(Do(s, Enqueue), k);
      && q.worker == p.worker && q.queue == p.queue && q.stage == p.stage
      && (p.input != [] ==> q.input != [])
  {
  }

  lemma SamePipe(s: System, a: Action, k: Kind)
    requires Enabled(s, a) && Before(a) && !a.Enqueue? && (a.Issue? || a.kind != k)
    ensures Of(Do(s, a), k) == Of(s, k)
  {
    hide PreCheck, Finish;
  }

  lemma OwnStage(s: System, a: Action, k: Kind)
    requires Enabled(s, a) && Before(a) && !a.Enqueue? && !a.Issue? && a.kind == k
    ensures var p, q := Of(s, k), Of(Do(s, a), k);
      && q.worker == p.worker && (p.queue != [] ==> q.queue != [] && q.queue[0] == p.queue[0])
      && a == StageStep(p, k)
  {
    hide PreCheck, Finish;
  }
}

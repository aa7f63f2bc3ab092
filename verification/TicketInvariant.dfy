/** What every step of the execution protocol keeps: the ticket queue is an order-preserving merge of the two
    pipelines, at most one worker is past the front test, and the book is the sequential fold of what was executed. */
module TicketInvariant {
  import opened Core
  import opened Book
  import opened Tickets
  import opened TicketLists
  import opened TicketLine

  // ---- Where requests are ----

  function InWorker(w: Worker): seq<Item> { if w.Idle? then [] else [w.item] }

  /** The item of a stage that has passed the check. */
  function InStage(st: Stage): seq<Item> { if st.Reported? || st.ReadingFront? then [st.item] else [] }

  predicate Ended(st: Stage) { st.Crashed? || st.Left? }

  /** The item of a stage that has not: it is checking, or it crashed doing so. */
  function InCheck(st: Stage): seq<Item> { if st.Checking? || Ended(st) then [st.item] else [] }

  function InRouter(s: System, k: Kind): seq<Item> {
    if s.router.Some? && s.router.value.kind == k then [s.router.value] else []
  }

  /** The requests that passed the check, the one nearest to execution first. */
  function Through(p: Pipe): seq<Item> { InWorker(p.worker) + (p.queue + InStage(p.stage)) }

  /** The requests still to be checked. */
  function Coming(s: System, k: Kind): seq<Item> { InCheck(Of(s, k).stage) + (Of(s, k).input + InRouter(s, k)) }

  // ---- The ticket queue ----

  ghost predicate LineOf(s: System, k: Kind) {
    Lined(s.tickets, s.issued, k, Through(Of(s, k)), Coming(s, k))
  }

  /** What the input stage lets through to the worker. */
  predicate Passed(p: Pipe, k: Kind) {
    && (forall x :: x in InWorker(p.worker) + p.queue ==> x.Supported())
    && (p.stage.Reported? ==> k == NewOrders && !p.stage.item.limit)
    && (p.stage.ReadingFront? ==> k == Cancels && p.stage.item.Supported())
    && (Ended(p.stage) ==> k == Cancels && p.stage.item.Crasher())
  }

  ghost predicate Queued(s: System) { forall k :: LineOf(s, k) && Passed(Of(s, k), k) }

  // ---- The lock ----

  predicate Critical(w: Worker) { w.Deciding? || w.Acting? || w.Clearing? }

  /** The worker has seen its own ticket at the front. */
  predicate PastFront(w: Worker) { w.SpinLock? || w.SetLock? || Critical(w) || w.Popping? }

  predicate FrontHeld(s: System, k: Kind) {
    PastFront(Of(s, k).worker) ==> s.tickets != [] && s.tickets[0] == Of(s, k).worker.item
  }

  predicate LockMeans(s: System) { s.locked <==> Critical(s.orders.worker) || Critical(s.cancels.worker) }

  ghost predicate Held(s: System) { (forall k :: FrontHeld(s, k)) && LockMeans(s) }

  // ---- The book ----

  function Requests(items: seq<Item>): seq<Request> {
    seq(|items|, i requires 0 <= i < |items| => items[i].request)
  }

  predicate Done(w: Worker) { w.Clearing? || w.Popping? }

  /** The tickets whose requests have not been executed: all, but the front one while its holder is leaving. */
  function Pending(s: System): seq<Item> {
    if (Done(s.orders.worker) || Done(s.cancels.worker)) && s.tickets != [] then s.tickets[1..] else s.tickets
  }

  /** The book is the fold of the executed requests, and nothing comes between a decision and its action. */
  ghost predicate Folded(s: System) {
    && s.book == Run(EMPTY, Requests(s.executed))
    && (forall x :: x in s.executed ==> WellFormed(x.request))
    && (forall k :: Of(s, k).worker.Acting? ==> Accepts(s.book, Of(s, k).worker.item.request))
  }

  ghost predicate Inv(s: System) {
    && Queued(s)
    && Held(s)
    && Folded(s)
    && Subsequence(s.executed + Pending(s), s.issued)
  }

  lemma StartInv()
    ensures Inv(START)
  {
    assert forall k :: Coming(START, k) == [] && Through(Of(START, k)) == [];
    assert Requests([]) == [];
  }

  // ---- The queue is kept ----

  lemma ReadLine(s: System, k: Kind)
    requires Queued(s)
    ensures LineOf(s, k) && Passed(Of(s, k), k)
  {
  }

  function Other(k: Kind): Kind { if k == NewOrders then Cancels else NewOrders }

  lemma BothLines(s: System, k: Kind)
    requires LineOf(s, k) && Passed(Of(s, k), k)
    requires LineOf(s, Other(k)) && Passed(Of(s, Other(k)), Other(k))
    ensures Queued(s)
  {
    hide LineOf, Passed;
    forall j ensures LineOf(s, j) && Passed(Of(s, j), j) {
      assert j == k || j == Other(k);
    }
  }

  lemma IssueQueued(s: System, x: Item)
    requires Queued(s) && Enabled(s, Issue(x))
    ensures Queued(Do(s, Issue(x)))
  {
    hide Lined;
    var t := Do(s, Issue(x));
    var k, o := x.kind, Other(x.kind);
    ReadLine(s, k);
    ReadLine(s, o);
    LineIssue(s.tickets, s.issued, k, Through(Of(s, k)), Coming(s, k), x);
    assert Coming(t, k) == Coming(s, k) + [x];
    LineIssueOther(s.tickets, s.issued, o, Through(Of(s, o)), Coming(s, o), x);
    BothLines(t, k);
  }

  /** A step that moves requests within the two parts of one pipeline and leaves the tickets alone. */
  lemma MoveQueued(s: System, t: System, k: Kind)
    requires Queued(s)
    requires t.tickets == s.tickets && t.issued == s.issued && Of(t, Other(k)) == Of(s, Other(k))
    requires Through(Of(t, k)) == Through(Of(s, k)) && Coming(t, k) == Coming(s, k)
    requires Coming(t, Other(k)) == Coming(s, Other(k))
    requires Passed(Of(t, k), k)
    ensures Queued(t)
  {
    hide Lined, Through, Coming, Passed;
    ReadLine(s, k);
    ReadLine(s, Other(k));
    BothLines(t, k);
  }

  lemma EnqueueQueued(s: System)
    requires Queued(s) && Enabled(s, Enqueue)
    ensures Queued(Do(s, Enqueue))
  {
    hide Queued, LineOf;
    var k := s.router.value.kind;
    ReadLine(s, k);
    MoveQueued(s, Do(s, Enqueue), k);
  }

  lemma TakeQueued(s: System, k: Kind)
    requires Queued(s) && Enabled(s, Take(k))
    ensures Queued(Do(s, Take(k)))
  {
    hide Queued, LineOf;
    var input := Of(s, k).input;
    assert [input[0]] + (input[1..] + InRouter(s, k)) == input + InRouter(s, k);
    ReadLine(s, k);
    MoveQueued(s, Do(s, Take(k)), k);
  }

  lemma LeaveQueued(s: System, k: Kind)
    requires Queued(s) && Enabled(s, Leave(k))
    ensures Queued(Do(s, Leave(k)))
  {
    hide Queued, LineOf;
    ReadLine(s, k);
    MoveQueued(s, Do(s, Leave(k)), k);
  }

  lemma PullQueued(s: System, k: Kind)
    requires Queued(s) && Enabled(s, Pull(k))
    ensures Queued(Do(s, Pull(k)))
  {
    hide Queued, LineOf;
    var p := Of(s, k);
    assert [p.queue[0]] + (p.queue[1..] + InStage(p.stage)) == p.queue + InStage(p.stage);
    assert [p.queue[0]] + p.queue[1..] == [] + p.queue;
    ReadLine(s, k);
    MoveQueued(s, Do(s, Pull(k)), k);
  }

  /** The steps of a worker that keep its request. */
  predicate Busy(a: Action) { a.Spin? || a.Lock? || a.Decide? || a.Act? || a.Clear? }

  /** Such a step changes the worker's place in its program, the lock, the book and the record, nothing else. */
  lemma BusyFrame(s: System, a: Action)
    requires Enabled(s, a) && Busy(a)
    ensures var t, k := Do(s, a), a.kind;
      && !Of(s, k).worker.Idle? && !Of(t, k).worker.Idle?
      && Of(t, k) == Of(s, k).(worker := Of(t, k).worker)
      && Of(t, k).worker.item == Of(s, k).worker.item
      && Of(t, Other(k)) == Of(s, Other(k))
      && t.tickets == s.tickets && t.issued == s.issued && t.router == s.router
  {
    hide Accepts, Apply, OwnHalf;
  }

  lemma WorkerQueued(s: System, a: Action)
    requires Queued(s) && Enabled(s, a) && Busy(a)
    ensures Queued(Do(s, a))
  {
    hide Do, Enabled, Queued;
    BusyFrame(s, a);
    ReadLine(s, a.kind);
    MoveQueued(s, Do(s, a), a.kind);
  }

  lemma FinishTwice(tickets: seq<Item>, id: nat)
    requires DistinctIds(tickets)
    ensures Finish(tickets, id) == Finish(Finish(tickets, id), id) == Without(tickets, id)
  {
    FinishIsWithout(tickets, id);
    WithoutMembers(tickets, id);
    FinishIsWithout(Without(tickets, id), id);
    WithoutNone(Without(tickets, id), id);
  }

  datatype Verdict = Withdraw | Push | Announce | LoseTicket | Crash

  /** What the input stage may do with the request it checks. */
  ghost predicate Judged(s: System, t: System, k: Kind, v: Verdict)
    requires Of(s, k).stage.Checking?
  {
    var p := Of(s, k);
    var x := p.stage.item;
    && t == (match v
        case Withdraw => With(s, k, p.(stage := Waiting)).(tickets := Without(s.tickets, x.id))
        case Push => With(s, k, p.(stage := Waiting, queue := p.queue + [x]))
        case Announce => With(s, k, p.(stage := ReadingFront(x)))
        case LoseTicket => With(s, k, p.(stage := Reported(x))).(tickets := Without(s.tickets, x.id))
        case Crash => With(s, k, p.(stage := Crashed(x))))
    && (v != Withdraw ==> x.complete && (x.limit <==> v != LoseTicket))
    && (v == Withdraw || v == LoseTicket ==> !x.Crasher())
    && (v == Push ==> k == NewOrders && x.Supported())
    && (v == Announce ==> k == Cancels && x.Supported())
    && (v == LoseTicket ==> k == NewOrders)
    && (v == Crash ==> x.Crasher())
  }

  lemma CheckJudges(s: System, k: Kind) returns (v: Verdict)
    requires Queued(s) && Enabled(s, Check(k))
    ensures Judged(s, Do(s, Check(k)), k, v)
  {
    hide Finish, PreCheck, Queued, Only, Limits, Without;
    var p := Of(s, k);
    var x := p.stage.item;
    ReadLine(s, k);
    FinishTwice(s.tickets, x.id);
    assert x == Coming(s, k)[0] && x in Through(p) + Coming(s, k);
    if !x.complete {
      v := Withdraw;
    } else if k == Cancels && !x.Supported() {
      v := Crash;
    } else if k == Cancels && !(x.request.CancelOf? && PreCheck(s.book, x.request)) {
      v := Withdraw;
    } else if k == Cancels {
      v := Announce;
    } else if !x.limit {
      v := LoseTicket;
    } else if !x.Supported() {
      v := Withdraw;
    } else {
      v := Push;
    }
  }

  lemma CheckQueued(s: System, k: Kind)
    requires Queued(s) && Enabled(s, Check(k))
    ensures Queued(Do(s, Check(k)))
  {
    hide Do, Lined, Queued, Without;
    var v := CheckJudges(s, k);
    var p, x, t := Of(s, k), Of(s, k).stage.item, Do(s, Check(k));
    ReadLine(s, k);
    if v == Crash {
      assert x == Coming(s, k)[0];
      ItemOf(s, k, x);
      MoveQueued(s, t, k);
    } else {
      CheckedOn(s, t, k, v);
    }
  }

  /** A request leaves the check. */
  lemma CheckedOn(s: System, t: System, k: Kind, v: Verdict)
    requires Queued(s) && Of(s, k).stage.Checking? && Judged(s, t, k, v) && v != Crash
    ensures Queued(t)
  {
    hide Lined, Queued, Without;
    var p, x := Of(s, k), Of(s, k).stage.item;
    ReadLine(s, k);
    var coming := p.input + InRouter(s, k);
    assert Coming(s, k) == [x] + coming;
    assert Coming(t, k) == coming;
    assert Through(Of(t, k)) == if v == Withdraw then Through(p) else Through(p) + [x];
    match v {
      case Withdraw => LineDrop(s.tickets, s.issued, k, Through(p), x, coming);
      case LoseTicket => LineReport(s.tickets, s.issued, k, Through(p), x, coming);
      case _ => LinePass(s.tickets, s.issued, k, Through(p), x, coming);
    }
    OtherAfterCheck(s, t, k, v);
    BothLines(t, k);
  }

  lemma ItemOf(s: System, k: Kind, x: Item)
    requires LineOf(s, k)
    requires x in Through(Of(s, k)) || x in Coming(s, k)
    ensures x in s.issued && x.kind == k && x.Proper()
  {
    hide Through, Coming, Only, Limits;
    assert x in Through(Of(s, k)) + Coming(s, k);
  }

  lemma OtherAfterCheck(s: System, t: System, k: Kind, v: Verdict)
    requires Queued(s) && Of(s, k).stage.Checking? && Judged(s, t, k, v)
    ensures LineOf(t, Other(k)) && Passed(Of(t, Other(k)), Other(k))
  {
    hide Lined, Queued, Without, Through, Passed;
    var x, o := Of(s, k).stage.item, Other(k);
    ReadLine(s, k);
    ReadLine(s, o);
    assert x == Coming(s, k)[0];
    ItemOf(s, k, x);
    if v == Withdraw || v == LoseTicket {
      LineWithdrawOther(s.tickets, s.issued, o, Through(Of(s, o)), Coming(s, o), x);
    }
  }

  lemma ForwardQueued(s: System, k: Kind)
    requires Queued(s) && Enabled(s, Forward(k))
    ensures Queued(Do(s, Forward(k)))
  {
    hide Lined, Queued, Finish;
    var p, x, t := Of(s, k), Of(s, k).stage.item, Do(s, Forward(k));
    ReadLine(s, k);
    assert Through(p) == (InWorker(p.worker) + p.queue) + [x];
    if p.stage.Reported? && !x.Supported() {
      assert Through(Of(t, k)) == InWorker(p.worker) + p.queue;
      LineForget(s.tickets, s.issued, k, InWorker(p.worker) + p.queue, x, Coming(s, k));
      NothingToFinish(s.tickets, s.issued, x.id, k, Through(p), Coming(s, k));
      ReadLine(s, Other(k));
      BothLines(t, k);
    } else {
      assert Through(Of(t, k)) == InWorker(p.worker) + ((p.queue + [x]) + []);
      assert InWorker(p.worker) + (p.queue + [x]) == (InWorker(p.worker) + p.queue) + [x];
      MoveQueued(s, t, k);
    }
  }

  lemma NothingToFinish(tickets: seq<Item>, issued: seq<Item>, id: nat, k: Kind, through: seq<Item>, coming: seq<Item>)
    requires Lined(tickets, issued, k, through, coming)
    requires forall y :: y in tickets ==> y.id != id
    ensures Finish(Finish(tickets, id), id) == tickets
  {
    hide Only, Limits;
    FinishTwice(tickets, id);
    WithoutNone(tickets, id);
  }

  lemma PopQueued(s: System, k: Kind)
    requires Queued(s) && Held(s) && Enabled(s, Pop(k))
    ensures Queued(Do(s, Pop(k)))
  {
    hide Lined, Queued;
    var p, o, t := Of(s, k), Other(k), Do(s, Pop(k));
    var x := p.worker.item;
    ReadLine(s, k);
    ReadLine(s, o);
    assert FrontHeld(s, k);
    assert Through(p) == [x] + (p.queue + InStage(p.stage));
    assert Through(Of(t, k)) == p.queue + InStage(p.stage);
    ItemOf(s, k, x);
    LinePop(s.tickets, s.issued, k, x, p.queue + InStage(p.stage), Coming(s, k));
    LinePopOther(s.tickets, s.issued, o, Through(Of(s, o)), Coming(s, o));
    BothLines(t, k);
  }

  lemma StepQueued(s: System, a: Action)
    requires Queued(s) && Held(s) && Enabled(s, a)
    ensures Queued(Do(s, a))
  {
    hide Queued, Held, Enabled, Do;
    match a {
      case Issue(x) => IssueQueued(s, x);
      case Enqueue => EnqueueQueued(s);
      case Take(k) => TakeQueued(s, k);
      case Check(k) => CheckQueued(s, k);
      case Forward(k) => ForwardQueued(s, k);
      case Leave(k) => LeaveQueued(s, k);
      case Pull(k) => PullQueued(s, k);
      case Pop(k) => PopQueued(s, k);
      case _ => WorkerQueued(s, a);
    }
  }

  // ---- The lock is kept ----

  lemma HolderItem(s: System, k: Kind)
    requires Queued(s) && !Of(s, k).worker.Idle?
    ensures Of(s, k).worker.item in s.issued && Of(s, k).worker.item.kind == k
  {
    hide Lined, Queued;
    var x := Of(s, k).worker.item;
    assert x == Through(Of(s, k))[0];
    ReadLine(s, k);
    ItemOf(s, k, x);
  }

  /** Mutual exclusion: two workers cannot both have their ticket at the front. */
  lemma OneHolder(s: System)
    requires Queued(s) && Held(s)
    ensures !(PastFront(s.orders.worker) && PastFront(s.cancels.worker))
  {
    hide Queued;
    assert FrontHeld(s, NewOrders) && FrontHeld(s, Cancels);
    if PastFront(s.orders.worker) && PastFront(s.cancels.worker) {
      HolderItem(s, NewOrders);
      HolderItem(s, Cancels);
    }
  }

  /** A request before or in the check has another id than the one a worker holds. */
  lemma UncheckedIsNotHeld(s: System, k: Kind, j: Kind)
    requires Queued(s) && Of(s, k).stage.Checking? && !Of(s, j).worker.Idle?
    ensures Of(s, j).worker.item.id != Of(s, k).stage.item.id
  {
    hide Queued, Lined;
    var x, y := Of(s, k).stage.item, Of(s, j).worker.item;
    ReadLine(s, k);
    ReadLine(s, j);
    HolderItem(s, j);
    assert x == Coming(s, k)[0];
    ItemOf(s, k, x);
    ReadSound(s, k);
    if j == k {
      var all := Through(Of(s, k)) + Coming(s, k);
      assert all[0] == y && all[|Through(Of(s, k))|] == x;
    } else if x.id == y.id {
      SameId(s.issued, x, y);
    }
  }

  lemma ReadSound(s: System, k: Kind)
    requires LineOf(s, k)
    ensures Sound(s.issued, k, Through(Of(s, k)), Coming(s, k))
    ensures DistinctIds(s.tickets) && forall x :: x in s.tickets ==> x in s.issued
  {
  }

  lemma SameHolders(s: System, t: System)
    requires Held(s)
    requires t.orders.worker == s.orders.worker && t.cancels.worker == s.cancels.worker && t.locked == s.locked
    requires s.tickets != [] && (PastFront(s.orders.worker) || PastFront(s.cancels.worker)) ==>
      t.tickets != [] && t.tickets[0] == s.tickets[0]
    ensures Held(t)
  {
    forall k ensures FrontHeld(t, k) {
      assert FrontHeld(s, k);
    }
  }

  /** The steps of the router and of the input stages. */
  predicate Before(a: Action) { a.Issue? || a.Enqueue? || a.Take? || a.Check? || a.Forward? || a.Leave? }

  /** The tickets after such a step. */
  lemma TicketsAfter(s: System, a: Action)
    requires Queued(s) && Enabled(s, a) && Before(a)
    ensures var t := Do(s, a);
      || (!a.Issue? && t.tickets == s.tickets)
      || (a.Issue? && t.tickets == s.tickets + [a.item])
      || (a.Check? && t.tickets == Without(s.tickets, Of(s, a.kind).stage.item.id))
    ensures var t := Do(s, a);
      && t.orders.worker == s.orders.worker && t.cancels.worker == s.cancels.worker && t.locked == s.locked
      && t.book == s.book && t.executed == s.executed
      && t.issued == s.issued + (if a.Issue? then [a.item] else [])
  {
    hide Queued, Lined, Finish, Without, PreCheck;
    assert s.issued + [] == s.issued;
    if a.Check? {
      var v := CheckJudges(s, a.kind);
    } else if a.Forward? {
      ReadLine(s, a.kind);
      if Of(s, a.kind).stage.Reported? { ReportedHasNone(s, a.kind); }
    }
  }

  lemma ReportedHasNone(s: System, k: Kind)
    requires Queued(s) && Of(s, k).stage.Reported?
    ensures var id := Of(s, k).stage.item.id; Finish(Finish(s.tickets, id), id) == s.tickets
  {
    hide Lined, Queued, Finish;
    var p, x := Of(s, k), Of(s, k).stage.item;
    ReadLine(s, k);
    assert Through(p) == (InWorker(p.worker) + p.queue) + [x];
    LineForget(s.tickets, s.issued, k, InWorker(p.worker) + p.queue, x, Coming(s, k));
    NothingToFinish(s.tickets, s.issued, x.id, k, Through(p), Coming(s, k));
  }

  /** While a worker holds the front, neither a new ticket nor a withdrawal moves it. */
  lemma BeforeKeepsFront(s: System, a: Action)
    requires Queued(s) && Held(s) && Enabled(s, a) && Before(a)
    requires PastFront(s.orders.worker) || PastFront(s.cancels.worker)
    ensures var t := Do(s, a);
      && s.tickets != [] && t.tickets != [] && t.tickets[0] == s.tickets[0]
      && (a.Check? && t.tickets != s.tickets ==>
            t.tickets[1..] == Without(s.tickets[1..], Of(s, a.kind).stage.item.id))
  {
    hide Queued, Do, Without;
    TicketsAfter(s, a);
    var j := if PastFront(s.orders.worker) then NewOrders else Cancels;
    assert FrontHeld(s, j);
    if a.Check? {
      UncheckedIsNotHeld(s, a.kind, j);
      FrontKept(s.tickets, Of(s, a.kind).stage.item.id);
    }
  }

  lemma BeforeHeld(s: System, a: Action)
    requires Queued(s) && Held(s) && Enabled(s, a) && Before(a)
    ensures Held(Do(s, a))
  {
    hide Queued, Do, Without;
    TicketsAfter(s, a);
    if PastFront(s.orders.worker) || PastFront(s.cancels.worker) { BeforeKeepsFront(s, a); }
    SameHolders(s, Do(s, a));
  }

  lemma SpinHeld(s: System, k: Kind)
    requires Queued(s) && Held(s) && Enabled(s, Spin(k))
    ensures Held(Do(s, Spin(k)))
  {
    hide Queued, Lined, Through, Coming, Passed;
    HolderItem(s, k);
    ReadLine(s, k);
    ReadSound(s, k);
    hide LineOf;
    assert FrontHeld(s, k) && FrontHeld(s, Other(k));
    if s.tickets != [] && s.tickets[0].id == Of(s, k).worker.item.id {
      SameId(s.issued, s.tickets[0], Of(s, k).worker.item);
    }
    forall j ensures FrontHeld(Do(s, Spin(k)), j) {
      assert j == k || j == Other(k);
    }
  }

  lemma WorkerHeld(s: System, a: Action)
    requires Queued(s) && Held(s) && Enabled(s, a) && !Before(a) && !a.Spin?
    ensures Held(Do(s, a))
  {
    hide Queued, Accepts, Apply, OwnHalf;
    var k := a.kind;
    OneHolder(s);
    assert FrontHeld(s, k) && FrontHeld(s, Other(k));
    forall j ensures FrontHeld(Do(s, a), j) {
      assert j == k || j == Other(k);
    }
  }

  lemma StepHeld(s: System, a: Action)
    requires Queued(s) && Held(s) && Enabled(s, a)
    ensures Held(Do(s, a))
  {
    hide Queued, Held, Enabled, Do;
    if Before(a) {
      BeforeHeld(s, a);
    } else if a.Spin? {
      SpinHeld(s, a.kind);
    } else {
      WorkerHeld(s, a);
    }
  }

  // ---- The book is kept ----

  lemma RunOneMore(items: seq<Item>, x: Item)
    ensures Run(EMPTY, Requests(items + [x])) == Exec(Run(EMPTY, Requests(items)), x.request)
  {
    hide Exec;
    assert Requests(items + [x]) == Requests(items) + [x.request];
    var rs := Requests(items) + [x.request];
    assert rs[..|rs| - 1] == Requests(items);
  }

  /** What a worker holds fits the book. */
  lemma WorkerRequest(s: System, k: Kind)
    requires Queued(s) && !Of(s, k).worker.Idle?
    ensures WellFormed(Of(s, k).worker.item.request)
    ensures Of(s, k).worker.item.request.New? <==> k == NewOrders
  {
    hide Only, Limits, Queued;
    var p := Of(s, k);
    var x := p.worker.item;
    ReadLine(s, k);
    ReadSound(s, k);
    assert x == Through(p)[0] && x == (InWorker(p.worker) + p.queue)[0];
    ItemOf(s, k, x);
    assert x in Through(p);
  }

  /** The decision, seen from the book: a rejected request is one the fold ignores. */
  lemma DecideFolded(s: System, k: Kind)
    requires Queued(s) && Held(s) && Folded(s) && Enabled(s, Decide(k))
    ensures Folded(Do(s, Decide(k)))
  {
    hide Queued, Accepts, Apply, OwnHalf, Run, Requests, EMPTY;
    var x, t := Of(s, k).worker.item, Do(s, Decide(k));
    WorkerRequest(s, k);
    RunOneMore(s.executed, x);
    forall j | Of(t, j).worker.Acting? ensures Accepts(t.book, Of(t, j).worker.item.request) {
      assert j == k || Of(t, j) == Of(s, j);
    }
  }

  lemma ActFolded(s: System, k: Kind)
    requires Queued(s) && Held(s) && Folded(s) && Enabled(s, Act(k))
    ensures Folded(Do(s, Act(k)))
  {
    hide Queued, Apply, Run, Requests, EMPTY, Has, GetOrder, WellFormed;
    var x, t := Of(s, k).worker.item, Do(s, Act(k));
    WorkerRequest(s, k);
    OneHolder(s);
    RunOneMore(s.executed, x);
    assert Accepts(s.book, x.request);
    assert t.book == Exec(s.book, x.request);
    assert !t.orders.worker.Acting? && !t.cancels.worker.Acting?;
  }

  lemma StepFolded(s: System, a: Action)
    requires Queued(s) && Held(s) && Folded(s) && Enabled(s, a)
    ensures Folded(Do(s, a))
  {
    hide Queued, Accepts, Apply, OwnHalf, Run, Requests, EMPTY, WellFormed;
    var t := Do(s, a);
    if a.Decide? {
      DecideFolded(s, a.kind);
    } else if a.Act? {
      ActFolded(s, a.kind);
    } else {
      assert t.book == s.book && t.executed == s.executed by {
        if Before(a) { TicketsAfter(s, a); }
      }
      forall j | Of(t, j).worker.Acting? ensures Accepts(t.book, Of(t, j).worker.item.request) {
        assert Of(t, j).worker == Of(s, j).worker by {
          if Before(a) { TicketsAfter(s, a); }
        }
      }
    }
  }

  // ---- The order is kept ----

  /** The tickets of those waiting, when a step of the router or an input stage changes the tickets. */
  lemma PendingAfter(s: System, a: Action)
    requires Queued(s) && Held(s) && Enabled(s, a) && Before(a)
    ensures var t := Do(s, a);
      || (t.issued == s.issued && Pending(t) == Pending(s))
      || (a.Issue? && t.issued == s.issued + [a.item] && Pending(t) == Pending(s) + [a.item])
      || (a.Check? && t.issued == s.issued && Pending(t) == Without(Pending(s), Of(s, a.kind).stage.item.id))
  {
    hide Queued, Held, Do, Without;
    var t := Do(s, a);
    TicketsAfter(s, a);
    assert s.issued + [] == s.issued;
    if Done(s.orders.worker) || Done(s.cancels.worker) {
      BeforeKeepsFront(s, a);
      if a.Issue? { assert (s.tickets + [a.item])[1..] == s.tickets[1..] + [a.item]; }
    }
  }

  lemma BeforeOrder(s: System, a: Action)
    requires Inv(s) && Enabled(s, a) && Before(a)
    ensures Subsequence(Do(s, a).executed + Pending(Do(s, a)), Do(s, a).issued)
  {
    hide Queued, Held, Folded, Do, Without, Subsequence, Pending;
    var t := Do(s, a);
    TicketsAfter(s, a);
    PendingAfter(s, a);
    if t.issued == s.issued && Pending(t) == Pending(s) {
    } else if a.Issue? {
      assert s.executed + (Pending(s) + [a.item]) == (s.executed + Pending(s)) + [a.item];
      SubsequenceBoth(s.executed + Pending(s), s.issued, a.item);
    } else {
      SubsequenceWithout(s.executed, Pending(s), s.issued, Of(s, a.kind).stage.item.id);
    }
  }

  lemma ExecuteOrder(s: System, a: Action)
    requires Queued(s) && Held(s) && Enabled(s, a) && (a.Act? || a.Decide?)
    ensures Do(s, a).executed + Pending(Do(s, a)) == s.executed + Pending(s)
    ensures Do(s, a).issued == s.issued
  {
    hide Queued, Accepts, Apply, OwnHalf, LockMeans;
    OneHolder(s);
    assert FrontHeld(s, a.kind);
    ExecuteFront(s.executed, s.tickets);
  }

  lemma LeaveOrder(s: System, a: Action)
    requires Queued(s) && Held(s) && Enabled(s, a) && (a.Clear? || a.Pop?)
    ensures Do(s, a).executed == s.executed && Pending(Do(s, a)) == Pending(s)
    ensures Do(s, a).issued == s.issued
  {
    hide Queued, LockMeans;
    OneHolder(s);
    assert FrontHeld(s, a.kind);
  }

  lemma SpinOrder(s: System, a: Action)
    requires Enabled(s, a) && (a.Pull? || a.Spin? || a.Lock?)
    ensures Do(s, a).executed == s.executed && Pending(Do(s, a)) == Pending(s)
    ensures Do(s, a).issued == s.issued
  {
  }

  /** A worker's step keeps executed and pending together. */
  lemma WorkerOrder(s: System, a: Action)
    requires Queued(s) && Held(s) && Enabled(s, a) && !Before(a)
    ensures Do(s, a).executed + Pending(Do(s, a)) == s.executed + Pending(s)
    ensures Do(s, a).issued == s.issued
  {
    hide Queued, Held, Enabled, Do, Pending;
    if a.Act? || a.Decide? {
      ExecuteOrder(s, a);
    } else if a.Clear? || a.Pop? {
      LeaveOrder(s, a);
    } else {
      SpinOrder(s, a);
    }
  }

  lemma ExecuteFront(executed: seq<Item>, tickets: seq<Item>)
    requires tickets != []
    ensures (executed + [tickets[0]]) + tickets[1..] == executed + tickets
  {
  }

  /** Every step keeps the invariant. */
  lemma StepInv(s: System, a: Action)
    requires Inv(s) && Enabled(s, a)
    ensures Inv(Do(s, a))
  {
    hide Queued, Held, Folded, Do, Enabled, Subsequence, Pending;
    StepQueued(s, a);
    StepHeld(s, a);
    StepFolded(s, a);
    if Before(a) {
      BeforeOrder(s, a);
    } else {
      WorkerOrder(s, a);
    }
  }

  lemma {:induction false} ReachInv(s: System, actions: seq<Action>, t: System)
    requires Inv(s) && Reaches(s, actions, t)
    ensures Inv(t)
    decreases |actions|
  {
    hide Inv, Do, Enabled;
    if actions != [] {
      StepInv(s, actions[0]);
      ReachInv(Do(s, actions[0]), actions[1..], t);
    }
  }
}

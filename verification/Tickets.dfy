/** The execution protocol of one market as a step system.

    The router issues a ticket and then enqueues the request to one of two pipelines. Each pipeline has an input
    stage, which may withdraw the ticket, and a worker, which may touch the book only while its ticket is at the
    front of the ticket queue. Every read of the spin loop, the assignment that takes the lock, the decision, the
    change of the book and the two halves of the release are steps of their own, in any interleaving. An input stage
    that meets an exception stops its worker and makes no further step. The worker obeys between two requests: it looks
    at its queue before it looks at the request to stop, so it finishes what it finds, but what was pushed after it last
    found the queue empty can be left there. */
module Tickets {
  import opened Core
  import opened Book

  datatype Kind = NewOrders | Cancels

  /** A request on its way. complete: the fields the input stage insists on are present. limit: the order type
      is Limit (no such check exists for cancels). */
  datatype Item = Item(id: nat, kind: Kind, request: Request, complete: bool, limit: bool)
  {
    /** The side is one the book knows; the parser lets through others as well. */
    predicate Supported() {
      match request
      case New(info) => info.order.side.Supported()
      case CancelOf(_, side, _) => side.Supported()
    }

    /** What the router hands over: the request fits the pipeline and, if its fields are there, is well formed. */
    predicate Proper() {
      && (kind == NewOrders <==> request.New?)
      && (complete && Supported() ==> WellFormed(request))
      && (kind == Cancels ==> limit)
    }

    /** A new order that passes every check of the input stage. */
    predicate Good() { kind == NewOrders && complete && Supported() && limit }

    /** An order of another type than Limit that passes every other check of the input stage. */
    predicate Ticketless() { kind == NewOrders && complete && Supported() && !limit }

    /** A cancel whose side the input stage cannot lock: it throws before it has withdrawn the ticket. */
    predicate Crasher() { kind == Cancels && complete && !Supported() }
  }

  datatype Stage =
    | Waiting
    | Checking(item: Item)      // about to verify the fields
    | Reported(item: Item)      // an unsupported order type: ticket withdrawn, reject sent, processing goes on
    | ReadingFront(item: Item)  // a cancel about to look at the front ticket
    | Crashed(item: Item)       // ended by an exception, the ticket still in the queue; the worker is asked to stop
    | Left(item: Item)          // and has done so

  datatype Worker =
    | Idle
    | SpinEmpty(item: Item) | SpinFront(item: Item) | SpinLock(item: Item) | SetLock(item: Item)
    | Deciding(item: Item) | Acting(item: Item)
    | Clearing(item: Item) | Popping(item: Item)

  datatype Pipe = Pipe(input: seq<Item>, stage: Stage, queue: seq<Item>, worker: Worker)

  datatype System = System(
    tickets: seq<Item>, locked: bool, router: Option<Item>, orders: Pipe, cancels: Pipe,
    book: State, issued: seq<Item>, executed: seq<Item>)

  const START := System([], false, None, Pipe([], Waiting, [], Idle), Pipe([], Waiting, [], Idle), EMPTY, [], [])

  function Of(s: System, k: Kind): Pipe { if k == NewOrders then s.orders else s.cancels }

  function With(s: System, k: Kind, p: Pipe): System {
    if k == NewOrders then s.(orders := p) else s.(cancels := p)
  }

  /** finish: erases the last ticket with an id, if there is one. */
  function Finish(tickets: seq<Item>, id: nat): seq<Item> {
    if tickets == [] then []
    else
      var n := |tickets| - 1;
      if tickets[n].id == id then tickets[..n] else Finish(tickets[..n], id) + [tickets[n]]
  }

  /** What the cancel pipeline's input stage finds in the book, without holding it. */
  predicate PreCheck(b: State, r: Request)
    requires r.CancelOf?
  {
    HasOn(b, r.id, r.side) && GetOrder(b, r.id).Some? && GetOrder(b, r.id).value.side == r.side
  }

  datatype Action =
    | Issue(item: Item)     // allow
    | Enqueue               // the router's append to the pipeline
    | Take(kind: Kind)      // the input stage takes the next request
    | Check(kind: Kind)     // and decides: withdraw, or go on
    | Forward(kind: Kind)   // and pushes it to the worker's queue
    | Leave(kind: Kind)     // the worker of a crashed stage is joined
    | Pull(kind: Kind)      // the worker takes the next request
    | Spin(kind: Kind)      // one read of the spin loop
    | Lock(kind: Kind)      // m_lock = true
    | Decide(kind: Kind)    // the checks under the lock
    | Act(kind: Kind)       // add or cancel
    | Clear(kind: Kind)     // m_lock = false
    | Pop(kind: Kind)       // pop_front

  ghost predicate Enabled(s: System, a: Action) {
    match a
    case Issue(item) => s.router.None? && item.Proper() && forall x :: x in s.issued ==> x.id != item.id
    case Enqueue => s.router.Some?
    case Take(k) => Of(s, k).stage.Waiting? && Of(s, k).input != []
    case Check(k) => Of(s, k).stage.Checking?
    case Forward(k) => Of(s, k).stage.Reported? || Of(s, k).stage.ReadingFront?
    case Leave(k) => Of(s, k).stage.Crashed? && Of(s, k).worker.Idle?
    case Pull(k) => Of(s, k).worker.Idle? && !Of(s, k).stage.Left? && Of(s, k).queue != []
    case Spin(k) => Of(s, k).worker.SpinEmpty? || Of(s, k).worker.SpinFront? || Of(s, k).worker.SpinLock?
    case Lock(k) => Of(s, k).worker.SetLock?
    case Decide(k) => Of(s, k).worker.Deciding?
    case Act(k) => Of(s, k).worker.Acting?
    case Clear(k) => Of(s, k).worker.Clearing?
    case Pop(k) => Of(s, k).worker.Popping?
  }

  /** The input stage's decision about the request it holds. */
  function Checked(s: System, k: Kind): System
    requires Of(s, k).stage.Checking?
  {
    var p := Of(s, k);
    var item := p.stage.item;
    if !item.complete then
      With(s, k, p.(stage := Waiting)).(tickets := Finish(s.tickets, item.id))
    else if k == Cancels && !item.Supported() then
      With(s, k, p.(stage := Crashed(item)))
    else if k == Cancels && !(item.request.CancelOf? && PreCheck(s.book, item.request)) then
      With(s, k, p.(stage := Waiting)).(tickets := Finish(s.tickets, item.id))
    else if k == Cancels then
      With(s, k, p.(stage := ReadingFront(item)))
    else if !item.limit then
      With(s, k, p.(stage := Reported(item))).(tickets := Finish(s.tickets, item.id))
    else if !item.Supported() then
      With(s, k, p.(stage := Waiting)).(tickets := Finish(Finish(s.tickets, item.id), item.id))
    else
      With(s, k, p.(stage := Waiting, queue := p.queue + [item]))
  }

  /** A request of an unsupported type is pushed to the worker although its ticket is gone, unless its side is
      unsupported too. A cancel is pushed after the look at the front. */
  function Forwarded(s: System, k: Kind): System
    requires Of(s, k).stage.Reported? || Of(s, k).stage.ReadingFront?
  {
    var p := Of(s, k);
    var item := p.stage.item;
    if p.stage.Reported? && !item.Supported() then
      With(s, k, p.(stage := Waiting)).(tickets := Finish(Finish(s.tickets, item.id), item.id))
    else
      With(s, k, p.(stage := Waiting, queue := p.queue + [item]))
  }

  /** One read of while (empty() || front() != id || m_lock). */
  function Spun(s: System, k: Kind): System
    requires Of(s, k).worker.SpinEmpty? || Of(s, k).worker.SpinFront? || Of(s, k).worker.SpinLock?
  {
    var p := Of(s, k);
    var item := p.worker.item;
    With(s, k, p.(worker :=
      match p.worker
      case SpinEmpty(_) => if s.tickets == [] then SpinEmpty(item) else SpinFront(item)
      case SpinFront(_) => if s.tickets == [] || s.tickets[0].id != item.id then SpinEmpty(item) else SpinLock(item)
      case _ => if s.locked then SpinEmpty(item) else SetLock(item)))
  }

  ghost function Do(s: System, a: Action): System
    requires Enabled(s, a)
  {
    match a
    case Issue(item) =>
      s.(tickets := s.tickets + [item], router := Some(item), issued := s.issued + [item])
    case Enqueue =>
      var item := s.router.value;
      With(s.(router := None), item.kind, Of(s, item.kind).(input := Of(s, item.kind).input + [item]))
    case Take(k) =>
      With(s, k, Of(s, k).(stage := Checking(Of(s, k).input[0]), input := Of(s, k).input[1..]))
    case Check(k) => Checked(s, k)
    case Forward(k) => Forwarded(s, k)
    case Leave(k) => With(s, k, Of(s, k).(stage := Left(Of(s, k).stage.item)))
    case Pull(k) =>
      With(s, k, Of(s, k).(worker := SpinEmpty(Of(s, k).queue[0]), queue := Of(s, k).queue[1..]))
    case Spin(k) => Spun(s, k)
    case Lock(k) =>
      With(s, k, Of(s, k).(worker := Deciding(Of(s, k).worker.item))).(locked := true)
    case Decide(k) =>
      var item := Of(s, k).worker.item;
      if Accepts(s.book, item.request) then With(s, k, Of(s, k).(worker := Acting(item)))
      else With(s, k, Of(s, k).(worker := Clearing(item))).(executed := s.executed + [item])
    case Act(k) =>
      var item := Of(s, k).worker.item;
      With(s, k, Of(s, k).(worker := Clearing(item)))
        .(book := if item.request.New? || item.request.id in OwnHalf(s.book, item.request.side).ids
                  then Apply(s.book, item.request) else s.book,
          executed := s.executed + [item])
    case Clear(k) =>
      With(s, k, Of(s, k).(worker := Popping(Of(s, k).worker.item))).(locked := false)
    case Pop(k) =>
      With(s, k, Of(s, k).(worker := Idle)).(tickets := if s.tickets == [] then [] else s.tickets[1..])
  }

  /** The state after a series of enabled actions, or none. */
  ghost predicate Reaches(s: System, actions: seq<Action>, t: System)
    decreases |actions|
  {
    if actions == [] then s == t
    else Enabled(s, actions[0]) && Reaches(Do(s, actions[0]), actions[1..], t)
  }
}

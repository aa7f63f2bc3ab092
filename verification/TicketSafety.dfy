/** What holds in every reachable state of the execution protocol. */
module TicketSafety {
  import opened Core
  import opened Book
  import opened Tickets
  import opened TicketLists
  import opened TicketLine
  import opened TicketInvariant
  import Invariant
  import History

  /** The ticket queue is an order-preserving merge of the two pipelines: the tickets of a pipeline are, in queue
      order, the Limit requests on their way to the book and the requests still to be checked. */
  lemma TicketsMerge(actions: seq<Action>, s: System, k: Kind)
    requires Reaches(START, actions, s)
    ensures Only(s.tickets, k) == Limits(Through(Of(s, k))) + Coming(s, k)
    ensures Subsequence(Through(Of(s, k)) + Coming(s, k), s.issued)
  {
    hide Reaches, START, Held, Folded, Subsequence, Only, Limits, Through, Coming;
    StartInv();
    ReachInv(START, actions, s);
    ReadLine(s, k);
  }

  /** Mutual exclusion although the spin loop reads the queue and the flag in separate steps: at most one worker is
      past its look at the front, its ticket is at the front, and m_lock is never set when it looks at it. */
  lemma MutualExclusion(actions: seq<Action>, s: System)
    requires Reaches(START, actions, s)
    ensures !(PastFront(s.orders.worker) && PastFront(s.cancels.worker))
    ensures forall k :: PastFront(Of(s, k).worker) ==> s.tickets != [] && s.tickets[0] == Of(s, k).worker.item
    ensures forall k :: Of(s, k).worker.SpinLock? || Of(s, k).worker.SetLock? ==> !s.locked
  {
    hide Reaches, START, Queued, Folded, Subsequence, Pending;
    StartInv();
    ReachInv(START, actions, s);
    OneHolder(s);
    assert FrontHeld(s, NewOrders) && FrontHeld(s, Cancels);
    forall k ensures PastFront(Of(s, k).worker) ==> s.tickets != [] && s.tickets[0] == Of(s, k).worker.item {
      assert FrontHeld(s, k);
    }
  }

  /** A worker past its look at the front, and the request it holds at the front. */
  predicate Holds(s: System, k: Kind, x: Item) {
    PastFront(Of(s, k).worker) && Of(s, k).worker.item == x && s.tickets != [] && s.tickets[0] == x
  }

  /** The holder's ticket stays at the front through every step of anyone, until its own release pops that ticket
      and no other. */
  lemma HolderKeepsTicket(actions: seq<Action>, s: System, k: Kind, x: Item, a: Action)
    requires Reaches(START, actions, s) && Holds(s, k, x) && Enabled(s, a)
    ensures if a == Pop(k) then s.tickets == [x] + Do(s, a).tickets else Holds(Do(s, a), k, x)
  {
    hide Reaches, START, Queued, Folded, Subsequence, Pending;
    StartInv();
    ReachInv(START, actions, s);
    OneHolder(s);
    if Before(a) {
      hide Do;
      BeforeKeepsFront(s, a);
      TicketsAfter(s, a);
    } else {
      WorkerKeepsHolder(s, k, x, a);
    }
  }

  lemma WorkerKeepsHolder(s: System, k: Kind, x: Item, a: Action)
    requires Held(s) && Holds(s, k, x) && Enabled(s, a) && !Before(a)
    requires !PastFront(Of(s, Other(k)).worker)
    ensures if a == Pop(k) then s.tickets == [x] + Do(s, a).tickets else Holds(Do(s, a), k, x)
  {
  }

  /** The cancel pipeline's look at the front never meets an empty queue. */
  lemma FrontIsThere(actions: seq<Action>, s: System)
    requires Reaches(START, actions, s) && s.cancels.stage.ReadingFront?
    ensures s.tickets != []
  {
    hide Reaches, START, Held, Folded, Subsequence, Only, Limits;
    StartInv();
    ReachInv(START, actions, s);
    ReadLine(s, Cancels);
    var p := s.cancels;
    var x := p.stage.item;
    assert x == Through(p)[|Through(p)| - 1];
    ItemOf(s, Cancels, x);
    LimitsMembers(Through(p));
    OnlyMembers(s.tickets, Cancels);
    assert x in Limits(Through(p)) + Coming(s, Cancels);
  }

  /** While the queue is empty the spin loop never gets past its first read: the front of an empty queue is looked at by
      no worker that has just seen it empty, and whoever looks too late starts again. */
  lemma EmptyQueueSpins(actions: seq<Action>, s: System, k: Kind)
    requires Reaches(START, actions, s) && s.tickets == [] && Enabled(s, Spin(k))
    ensures var p := Of(s, k);
      !p.worker.SpinLock? && Do(s, Spin(k)) == With(s, k, p.(worker := SpinEmpty(p.worker.item)))
  {
    hide Reaches, START, Queued, Folded, Subsequence, LockMeans;
    StartInv();
    ReachInv(START, actions, s);
    assert FrontHeld(s, k);
  }

  /** Serialisation: in every run the book is the sequential fold of the executed requests; they were executed in
      the order in which the router issued their tickets, each at most once; and so everything proved of
      sequential runs holds of the concurrent market. */
  lemma Serialised(actions: seq<Action>, s: System)
    requires Reaches(START, actions, s)
    ensures s.book == Run(EMPTY, Requests(s.executed))
    ensures Subsequence(s.executed + Pending(s), s.issued)
    ensures DistinctIds(s.executed + Pending(s))
    ensures Invariant.BookOk(s.book)
    ensures History.Good(History.After(Requests(s.executed)))
  {
    hide Reaches, START, Held, Lined, Subsequence, Pending, Run, Invariant.BookOk, History.Good, History.After;
    StartInv();
    ReachInv(START, actions, s);
    SerialDistinct(s);
    assert forall r :: r in Requests(s.executed) ==> WellFormed(r);
    Invariant.RunKeeps(Requests(s.executed));
    History.RunGood(Requests(s.executed));
  }

  lemma SerialDistinct(s: System)
    requires Inv(s)
    ensures DistinctIds(s.executed + Pending(s))
  {
    hide Held, Folded, Subsequence, Pending;
    ReadLine(s, NewOrders);
    SubsequenceDistinct(s.executed + Pending(s), s.issued);
  }
}

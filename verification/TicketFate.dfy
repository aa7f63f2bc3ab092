/** What becomes of a request once its ticket is issued: a complete Limit order keeps its ticket until it is executed;
    an order of another type loses its ticket but stays in the pipeline for ever, and no order issued after it is ever
    executed; a cancel on an unsupported side ends its input stage and keeps its ticket for ever, and nothing issued
    after it is ever executed. */
module TicketFate {
  import Book
  import opened Tickets
  import opened TicketLists
  import opened TicketLine
  import opened TicketInvariant

  function Orders(s: System): seq<Item> { Through(s.orders) + Coming(s, NewOrders) }

  ghost predicate Earlier(issued: seq<Item>, x: Item, y: Item) {
    exists i, j :: 0 <= i < j < |issued| && issued[i] == x && issued[j] == y
  }

  ghost predicate Kept(s: System) {
    && (forall x :: x in s.issued && x.Good() ==> x in s.tickets || x in s.executed)
    && (forall y :: y in s.issued && y.Crasher() ==> y in s.tickets && y !in s.executed)
    && (forall k :: Done(Of(s, k).worker) ==> Of(s, k).worker.item in s.executed)
  }

  ghost predicate Starved(s: System) {
    && (forall y :: y in s.issued && y.Ticketless() ==> y in Orders(s))
    && (forall x, y :: x in s.executed && x.kind == NewOrders && y in s.issued && y.Ticketless() ==>
          Earlier(s.issued, x, y))
  }

  // ---- Who keeps its ticket ----

  lemma KeptBefore(s: System, a: Action)
    requires Inv(s) && Kept(s) && Enabled(s, a) && Before(a)
    ensures Kept(Do(s, a))
  {
    hide Held, Folded, Subsequence, Pending, Do, Without, Lined;
    var t := Do(s, a);
    TicketsAfter(s, a);
    ExecutedWasIssued(s);
    forall x | x in t.issued && (x.Good() || x.Crasher())
      ensures if x.Good() then x in t.tickets || x in t.executed else x in t.tickets && x !in t.executed
    {
      if a.Check? && t.tickets != s.tickets {
        WithdrawnIsBad(s, a.kind, x);
      }
    }
    forall k | Done(Of(t, k).worker) ensures Of(t, k).worker.item in t.executed {
      assert Of(t, k).worker == Of(s, k).worker;
    }
  }

  /** The check withdraws no ticket of a complete Limit order on a supported side, and none of a cancel that makes it
      throw. */
  lemma WithdrawnIsBad(s: System, k: Kind, x: Item)
    requires Inv(s) && Enabled(s, Check(k)) && Do(s, Check(k)).tickets != s.tickets
    requires x in s.issued && (x.Good() || x.Crasher())
    ensures x in s.tickets <==> x in Without(s.tickets, Of(s, k).stage.item.id)
  {
    hide Held, Folded, Subsequence, Pending, Without, Lined, Finish, PreCheck;
    var y := Of(s, k).stage.item;
    ReadLine(s, k);
    ReadSound(s, k);
    assert y == Coming(s, k)[0];
    ItemOf(s, k, y);
    WithoutMembers(s.tickets, y.id);
    if x.id == y.id { SameId(s.issued, x, y); }
  }

  lemma KeptWorker(s: System, a: Action)
    requires Inv(s) && Kept(s) && Enabled(s, a) && !Before(a)
    ensures Kept(Do(s, a))
  {
    hide Queued, Folded, Subsequence, Pending;
    var t := Do(s, a);
    WorkerFate(s, a);
    if a.Act? || a.Decide? || a.Pop? { WorkerSupported(s, a.kind); }
    hide Do;
    forall x | x in t.issued && (x.Good() || x.Crasher())
      ensures if x.Good() then x in t.tickets || x in t.executed else x in t.tickets && x !in t.executed
    {
      assert x.Crasher() || x in s.tickets || x in s.executed;
    }
    forall k | Done(Of(t, k).worker) ensures Of(t, k).worker.item in t.executed {
      assert Of(t, k).worker == Of(s, k).worker || k == a.kind;
    }
  }

  lemma WorkerSupported(s: System, k: Kind)
    requires Queued(s) && !Of(s, k).worker.Idle?
    ensures Of(s, k).worker.item.Supported()
  {
    hide Queued, LineOf;
    ReadLine(s, k);
    assert Of(s, k).worker.item in InWorker(Of(s, k).worker) + Of(s, k).queue;
  }

  /** A worker executes its own request and pops its own ticket. */
  ghost predicate Fated(s: System, a: Action, t: System)
    requires Enabled(s, a) && !Before(a)
  {
    && t.issued == s.issued
    && Of(t, Other(a.kind)) == Of(s, Other(a.kind))
    && (if a.Act? || (a.Decide? && !Of(t, a.kind).worker.Acting?) then t.executed == s.executed + [Of(s, a.kind).worker.item]
        else t.executed == s.executed)
    && (if a.Pop? then s.tickets == [Of(s, a.kind).worker.item] + t.tickets && Done(Of(s, a.kind).worker)
        else t.tickets == s.tickets)
    && (Done(Of(t, a.kind).worker) ==>
          !Of(s, a.kind).worker.Idle? && Of(t, a.kind).worker.item == Of(s, a.kind).worker.item
          && (Done(Of(s, a.kind).worker) || t.executed == s.executed + [Of(s, a.kind).worker.item]))
  }

  lemma WorkerFate(s: System, a: Action)
    requires Held(s) && Enabled(s, a) && !Before(a)
    ensures Fated(s, a, Do(s, a))
  {
    hide Held, Do, Enabled, Fated;
    if a.Act? || a.Decide? { ExecuteFate(s, a); } else { MoveFate(s, a); }
  }

  lemma ExecuteFate(s: System, a: Action)
    requires Enabled(s, a) && (a.Act? || a.Decide?)
    ensures Fated(s, a, Do(s, a))
  {
    hide Book.Accepts, Book.Apply, Book.OwnHalf;
  }

  lemma MoveFate(s: System, a: Action)
    requires Held(s) && Enabled(s, a) && !Before(a) && !a.Act? && !a.Decide?
    ensures Fated(s, a, Do(s, a))
  {
    assert FrontHeld(s, a.kind);
    hide LockMeans;
  }

  // ---- An order of another type stops the pipeline ----

  lemma SubsequenceIndex(a: seq<Item>, b: seq<Item>, i: nat, j: nat)
    requires Subsequence(a, b) && i < j < |a|
    ensures Earlier(b, a[i], a[j])
    decreases |b|
  {
    var n, m := |a| - 1, |b| - 1;
    if a[n] == b[m] {
      if j == n {
        assert a[i] in a[..n];
        SubsequenceMembers(a[..n], b[..m]);
        var p :| 0 <= p < m && b[..m][p] == a[i];
        assert b[p] == a[i];
      } else {
        SubsequenceIndex(a[..n], b[..m], i, j);
        EarlierPrefix(b, m, a[i], a[j]);
      }
    } else {
      SubsequenceIndex(a, b[..m], i, j);
      EarlierPrefix(b, m, a[i], a[j]);
    }
  }

  lemma EarlierPrefix(b: seq<Item>, m: nat, x: Item, y: Item)
    requires m <= |b| && Earlier(b[..m], x, y)
    ensures Earlier(b, x, y)
  {
    var i, j :| 0 <= i < j < m && b[..m][i] == x && b[..m][j] == y;
    assert b[i] == x && b[j] == y;
  }

  lemma EarlierLonger(b: seq<Item>, z: Item, x: Item, y: Item)
    requires Earlier(b, x, y)
    ensures Earlier(b + [z], x, y)
  {
    assert (b + [z])[..|b|] == b;
    EarlierPrefix(b + [z], |b|, x, y);
  }

  lemma EarlierNew(b: seq<Item>, x: Item, z: Item)
    requires x in b
    ensures Earlier(b + [z], x, z)
  {
    var i :| 0 <= i < |b| && b[i] == x;
    assert (b + [z])[i] == x && (b + [z])[|b|] == z;
  }

  /** What a worker holds comes first in its pipeline. */
  lemma HolderIsFirst(s: System, y: Item)
    requires Queued(s) && !s.orders.worker.Idle? && y in Orders(s) && y != s.orders.worker.item
    ensures Earlier(s.issued, s.orders.worker.item, y)
  {
    hide Queued, Only, Limits, Subsequence;
    ReadLine(s, NewOrders);
    ReadSound(s, NewOrders);
    var all := Orders(s);
    assert all[0] == s.orders.worker.item;
    var j :| 0 <= j < |all| && all[j] == y;
    SubsequenceIndex(all, s.issued, 0, j);
  }

  /** The holder of the front ticket is of type Limit. */
  lemma HolderIsLimit(s: System, k: Kind)
    requires Queued(s) && FrontHeld(s, k) && PastFront(Of(s, k).worker)
    ensures Of(s, k).worker.item.limit
  {
    hide Queued, Only, Limits, Subsequence;
    var p, x := Of(s, k), Of(s, k).worker.item;
    ReadLine(s, k);
    ReadSound(s, k);
    assert Through(p) == [x] + (p.queue + InStage(p.stage));
    ItemOf(s, k, x);
    OnlyMembers(s.tickets, k);
    LimitsMembers(Through(p));
    HeadAlone(x, p.queue + InStage(p.stage), Coming(s, k), s.issued);
    assert x in Limits(Through(p)) + Coming(s, k);
  }

  /** The requests of the order pipeline after a step: no step but a withdrawal of an order that fails the check, a
      step of the router and a release takes one away. */
  lemma OrdersAfter(s: System, a: Action, y: Item)
    requires Inv(s) && Enabled(s, a) && y in Orders(s) && y.Ticketless()
    ensures y in Orders(Do(s, a))
  {
    hide Inv, Do, Enabled, Orders;
    if (a.Check? || a.Forward? || a.Pop?) && a.kind == Cancels {
      CancelsApart(s, a);
    } else {
      match a {
        case Check(_) => OrdersAfterCheck(s, y);
        case Forward(_) => OrdersAfterForward(s, y);
        case Pop(_) => OrdersAfterPop(s, y);
        case _ => OrdersMoved(s, a, y);
      }
    }
  }

  lemma CancelsApart(s: System, a: Action)
    requires Enabled(s, a) && (a.Check? || a.Forward? || a.Pop?) && a.kind == Cancels
    ensures Orders(Do(s, a)) == Orders(s)
  {
    CancelsFrame(s, a);
    hide Do;
  }

  lemma CancelsFrame(s: System, a: Action)
    requires Enabled(s, a) && (a.Check? || a.Forward? || a.Pop?) && a.kind == Cancels
    ensures Do(s, a).orders == s.orders && Do(s, a).router == s.router
  {
    hide PreCheck, Finish;
  }

  lemma OrdersAfterCheck(s: System, y: Item)
    requires Inv(s) && Enabled(s, Check(NewOrders)) && y in Orders(s) && y.Ticketless()
    ensures y in Orders(Do(s, Check(NewOrders)))
  {
    hide Inv, Finish;
    var p, x, t := s.orders, s.orders.stage.item, Do(s, Check(NewOrders));
    assert Of(t, NewOrders).input == p.input && t.router == s.router && t.orders.worker == p.worker;
    if y == x {
      assert y in InStage(t.orders.stage);
      assert y in Through(t.orders);
    } else if y in Through(p) {
      assert y in InWorker(p.worker) || y in p.queue;
      assert y in Through(t.orders);
    } else {
      assert y in p.input + InRouter(s, NewOrders);
      assert y in Coming(t, NewOrders);
    }
  }

  lemma OrdersAfterForward(s: System, y: Item)
    requires Inv(s) && Enabled(s, Forward(NewOrders)) && y in Orders(s) && y.Ticketless()
    ensures y in Orders(Do(s, Forward(NewOrders)))
  {
    hide Inv, Finish;
    var p, x, t := s.orders, s.orders.stage.item, Do(s, Forward(NewOrders));
    if y == x {
      assert y in t.orders.queue;
      assert y in Through(t.orders);
    } else if y in Through(p) {
      assert y in InWorker(p.worker) || y in p.queue;
      assert y in Through(t.orders);
    } else {
      assert y in p.input + InRouter(s, NewOrders);
      assert y in Coming(t, NewOrders);
    }
  }

  lemma OrdersAfterPop(s: System, y: Item)
    requires Inv(s) && Enabled(s, Pop(NewOrders)) && y in Orders(s) && y.Ticketless()
    ensures y in Orders(Do(s, Pop(NewOrders)))
  {
    hide Queued, Folded, Subsequence, Pending;
    var p, t := s.orders, Do(s, Pop(NewOrders));
    assert FrontHeld(s, NewOrders);
    HolderIsLimit(s, NewOrders);
    assert y != p.worker.item;
    if y in Through(p) {
      assert y in p.queue + InStage(p.stage);
      assert y in Through(t.orders);
    } else {
      assert y in Coming(t, NewOrders);
    }
  }

  lemma OrdersMoved(s: System, a: Action, y: Item)
    requires Inv(s) && Enabled(s, a) && y in Orders(s) && !a.Check? && !a.Forward? && !a.Pop?
    ensures y in Orders(Do(s, a))
  {
    hide Inv, Lined;
    if Busy(a) {
      hide Do, Enabled;
      BusyFrame(s, a);
    } else {
      OrdersPassed(s, a, y);
    }
  }

  lemma OrdersPassed(s: System, a: Action, y: Item)
    requires Enabled(s, a) && y in Orders(s) && (a.Issue? || a.Enqueue? || a.Take? || a.Pull? || a.Leave?)
    ensures y in Orders(Do(s, a))
  {
  }

  /** Which request a step executes, if any. */
  ghost predicate Executes(s: System, a: Action, t: System) {
    && (a.Act? || a.Decide?) && !Of(s, a.kind).worker.Idle?
    && t.executed == s.executed + [Of(s, a.kind).worker.item]
  }

  lemma ExecutedAfter(s: System, a: Action)
    requires Inv(s) && Enabled(s, a)
    ensures Do(s, a).executed == s.executed || Executes(s, a, Do(s, a))
  {
    hide Queued, Folded, Subsequence, Pending, Do;
    if Before(a) { TicketsAfter(s, a); } else { WorkerFate(s, a); }
  }

  lemma IssuedAfter(s: System, a: Action)
    requires Inv(s) && Enabled(s, a)
    ensures Do(s, a).issued == if a.Issue? then s.issued + [a.item] else s.issued
  {
    hide Queued, Folded, Subsequence, Pending, Do;
    assert s.issued + [] == s.issued;
    if Before(a) { TicketsAfter(s, a); } else { WorkerFate(s, a); }
  }

  lemma ExecutedWasIssued(s: System)
    requires Inv(s)
    ensures forall x :: x in s.executed ==> x in s.issued
  {
    hide Queued, Held, Folded, Subsequence, Pending;
    SubsequenceMembers(s.executed + Pending(s), s.issued);
    assert forall x :: x in s.executed ==> x in s.executed + Pending(s);
  }

  lemma StarvedPair(s: System, a: Action, x: Item, y: Item)
    requires Inv(s) && Starved(s) && Enabled(s, a)
    requires x in Do(s, a).executed && x.kind == NewOrders && y in Do(s, a).issued && y.Ticketless()
    ensures Earlier(Do(s, a).issued, x, y)
  {
    hide Do, Folded, Subsequence, Pending, Earlier, Orders, Queued;
    var t := Do(s, a);
    IssuedAfter(s, a);
    ExecutedAfter(s, a);
    if a.Issue? {
      if y in s.issued {
        EarlierLonger(s.issued, a.item, x, y);
      } else {
        ExecutedWasIssued(s);
        EarlierNew(s.issued, x, a.item);
      }
    } else if x !in s.executed {
      assert FrontHeld(s, a.kind);
      HolderItem(s, a.kind);
      HolderIsLimit(s, a.kind);
      HolderIsFirst(s, y);
    }
  }

  lemma StarvedOrders(s: System, a: Action, y: Item)
    requires Inv(s) && Starved(s) && Enabled(s, a) && y in Do(s, a).issued && y.Ticketless()
    ensures y in Orders(Do(s, a))
  {
    hide Inv, Lined, Earlier;
    IssuedAfter(s, a);
    if y in s.issued {
      hide Do, Orders;
      OrdersAfter(s, a, y);
    } else {
      assert y in InRouter(Do(s, a), NewOrders);
      assert y in Coming(Do(s, a), NewOrders);
    }
  }

  ghost predicate Fates(s: System) { Inv(s) && Kept(s) && Starved(s) }

  lemma StepFates(s: System, a: Action)
    requires Fates(s) && Enabled(s, a)
    ensures Fates(Do(s, a))
  {
    var t := Do(s, a);
    hide Do;
    StepInv(s, a);
    forall y | y in t.issued && y.Ticketless() ensures y in Orders(t) { StarvedOrders(s, a, y); }
    forall x, y | x in t.executed && x.kind == NewOrders && y in t.issued && y.Ticketless()
      ensures Earlier(t.issued, x, y)
    {
      StarvedPair(s, a, x, y);
    }
    hide Inv, Orders, Earlier, Kept;
    if Before(a) { KeptBefore(s, a); } else { KeptWorker(s, a); }
  }

  lemma {:induction false} ReachFates(s: System, actions: seq<Action>, t: System)
    requires Fates(s) && Reaches(s, actions, t)
    ensures Fates(t)
    decreases |actions|
  {
    hide Fates, Do, Enabled;
    if actions != [] {
      StepFates(s, actions[0]);
      ReachFates(Do(s, actions[0]), actions[1..], t);
    }
  }

  lemma StartFates()
    ensures Fates(START)
  {
    StartInv();
  }

  // ---- The theorems ----

  lemma NotBoth(issued: seq<Item>, x: Item, y: Item)
    requires DistinctIds(issued) && Earlier(issued, x, y)
    ensures !Earlier(issued, y, x)
  {
    var i, j :| 0 <= i < j < |issued| && issued[i] == x && issued[j] == y;
    forall p, q | 0 <= p < q < |issued| && issued[p] == y ensures issued[q] != x {
      assert p == j;
    }
  }

  lemma IssuedDistinct(s: System)
    requires Inv(s)
    ensures DistinctIds(s.issued)
  {
    hide Held, Folded;
    ReadLine(s, NewOrders);
  }

  /** Once an order of another type than Limit that is otherwise fine has its ticket issued, no order issued after
      it is executed in any run: its worker waits for ever for a ticket that was withdrawn. */
  lemma TypeStopsOrders(actions: seq<Action>, s: System, y: Item, x: Item)
    requires Reaches(START, actions, s)
    requires y.Ticketless() && x.kind == NewOrders && Earlier(s.issued, y, x)
    ensures x !in s.executed
  {
    hide Reaches, START, Earlier, Inv, Kept;
    StartFates();
    ReachFates(START, actions, s);
    IssuedDistinct(s);
    NotBoth(s.issued, y, x);
    EarlierMembers(s.issued, y, x);
  }

  lemma EarlierMembers(issued: seq<Item>, x: Item, y: Item)
    requires Earlier(issued, x, y)
    ensures x in issued && y in issued
  {
  }

  /** And once a complete Limit order is issued behind it, that order's ticket never leaves the queue, and no
      request at all, order or cancel, issued after that is executed in any run. */
  lemma TypeStopsMarket(actions: seq<Action>, s: System, y: Item, x: Item)
    requires Reaches(START, actions, s)
    requires y.Ticketless() && x.Good() && Earlier(s.issued, y, x)
    ensures x in s.tickets
    ensures forall z :: Earlier(s.issued, x, z) ==> z !in s.executed
  {
    hide Reaches, START, Earlier, Inv;
    StartFates();
    ReachFates(START, actions, s);
    TypeStopsOrders(actions, s, y, x);
    EarlierMembers(s.issued, y, x);
    IssuedDistinct(s);
    assert x in s.tickets && x !in s.executed;
    forall z | Earlier(s.issued, x, z) ensures z !in s.executed {
      NotBoth(s.issued, x, z);
      if z in s.executed { ExecutedFirst(s, z, x); }
    }
  }

  /** What has been executed was issued before what still waits. */
  lemma ExecutedFirst(s: System, z: Item, x: Item)
    requires Inv(s) && Kept(s) && z in s.executed && x in s.tickets && x !in s.executed
    ensures Earlier(s.issued, z, x)
  {
    hide Queued, Folded, Subsequence, Earlier;
    assert FrontHeld(s, NewOrders) && FrontHeld(s, Cancels);
    assert Of(s, NewOrders) == s.orders && Of(s, Cancels) == s.cancels;
    assert s.tickets == [s.tickets[0]] + s.tickets[1..];
    assert x in Pending(s);
    var i :| 0 <= i < |s.executed| && s.executed[i] == z;
    var j :| 0 <= j < |Pending(s)| && Pending(s)[j] == x;
    var all := s.executed + Pending(s);
    assert all[i] == z && all[|s.executed| + j] == x;
    SubsequenceIndex(all, s.issued, i, |s.executed| + j);
  }

  /** A complete cancel on an unsupported side, once its ticket is issued, keeps it for ever, and no request issued after
      it is executed in any run. */
  lemma CrashStopsMarket(actions: seq<Action>, s: System, y: Item)
    requires Reaches(START, actions, s) && y in s.issued && y.Crasher()
    ensures y in s.tickets && y !in s.executed
    ensures forall z :: Earlier(s.issued, y, z) ==> z !in s.executed
  {
    hide Reaches, START, Earlier, Inv;
    StartFates();
    ReachFates(START, actions, s);
    IssuedDistinct(s);
    forall z | Earlier(s.issued, y, z) ensures z !in s.executed {
      NotBoth(s.issued, y, z);
      if z in s.executed { ExecutedFirst(s, z, y); }
    }
  }

  /** A request that can never be executed and never gives its ticket back: a cancel that makes its input stage throw,
      or a complete Limit order behind an otherwise fine order of another type. */
  ghost predicate Blocked(issued: seq<Item>, f: Item) {
    || f.Crasher()
    || (f.Good() && exists y: Item :: y.Ticketless() && Earlier(issued, y, f))
  }

  lemma BlockedStays(actions: seq<Action>, s: System, f: Item)
    requires Reaches(START, actions, s) && f in s.issued && Blocked(s.issued, f)
    ensures f in s.tickets && f !in s.executed
    ensures forall z :: Earlier(s.issued, f, z) ==> z !in s.executed
  {
    hide Reaches, START, Earlier;
    if f.Crasher() {
      CrashStopsMarket(actions, s, f);
    } else {
      var y: Item :| y.Ticketless() && Earlier(s.issued, y, f);
      TypeStopsOrders(actions, s, y, f);
      TypeStopsMarket(actions, s, y, f);
    }
  }

  /** When the ticket queue is empty, every complete Limit order on a supported side has been executed. */
  lemma EmptyMeansExecuted(actions: seq<Action>, s: System, x: Item)
    requires Reaches(START, actions, s) && s.tickets == []
    requires x in s.issued && x.Good()
    ensures x in s.executed
  {
    hide Reaches, START, Inv, Starved;
    StartFates();
    ReachFates(START, actions, s);
  }
}

/** What a worker leaves behind when a crashed input stage stops it: requests that passed the check and are never
    executed, whose tickets never leave the queue. */
module TicketStranded {
  import opened Tickets
  import opened TicketLists
  import opened TicketLine
  import opened TicketInvariant
  import opened TicketFate

  predicate Stranded(s: System, f: Item) { Of(s, f.kind).stage.Left? && f in Of(s, f.kind).queue }

  /** No step takes a request from a worker that has left, and only the worker's leaving strands one. */
  lemma StrandedStep(s: System, a: Action, f: Item)
    requires Enabled(s, a)
    ensures Stranded(s, f) ==> Stranded(Do(s, a), f)
    ensures !a.Leave? && Stranded(Do(s, a), f) ==> Stranded(s, f)
  {
    if Busy(a) {
      hide Do, Enabled;
      BusyFrame(s, a);
      assert f.kind == a.kind || f.kind == Other(a.kind);
    } else if a.Check? || a.Forward? {
      StrandedCheck(s, a, f);
    } else {
      StrandedPass(s, a, f);
    }
  }

  lemma StrandedCheck(s: System, a: Action, f: Item)
    requires Enabled(s, a) && (a.Check? || a.Forward?)
    ensures Stranded(s, f) <==> Stranded(Do(s, a), f)
  {
    hide PreCheck, Finish;
    var t := Do(s, a);
    assert !Of(s, a.kind).stage.Left? && !Of(t, a.kind).stage.Left?;
    assert Of(t, Other(a.kind)) == Of(s, Other(a.kind));
    assert f.kind == a.kind || f.kind == Other(a.kind);
  }

  lemma StrandedPass(s: System, a: Action, f: Item)
    requires Enabled(s, a) && !Busy(a) && !a.Check? && !a.Forward?
    ensures Stranded(s, f) ==> Stranded(Do(s, a), f)
    ensures !a.Leave? && Stranded(Do(s, a), f) ==> Stranded(s, f)
  {
  }

  /** A stranded request is a cancel like any other in its queue, behind it a cancel its input stage crashed on. */
  lemma StrandedIs(s: System, f: Item)
    requires Queued(s) && Stranded(s, f)
    ensures f in s.issued && f in s.tickets && f.limit
    ensures exists y: Item :: y in s.issued && y.Crasher()
  {
    hide Queued, Limits, Only, Subsequence;
    var k := f.kind;
    var p := Of(s, k);
    ReadLine(s, k);
    assert f in Through(p);
    ItemOf(s, k, f);
    LimitsMembers(Through(p));
    OnlyMembers(s.tickets, k);
    assert f in Limits(Through(p)) + Coming(s, k);
    assert p.stage.item == Coming(s, k)[0];
    ItemOf(s, k, p.stage.item);
  }

  /** Only the cancel pipeline's input stage can crash. */
  lemma StrandedCancels(s: System, f: Item)
    requires Inv(s) && Stranded(s, f)
    ensures f.kind == Cancels
  {
    hide Queued, Held, Folded, Subsequence;
    ReadLine(s, f.kind);
  }

  lemma StrandedWaits(s: System, f: Item)
    requires Inv(s) && Stranded(s, f)
    ensures f in s.tickets && f !in s.executed
  {
    hide Queued, Folded, Subsequence, LockMeans, Stranded, DistinctIds;
    StrandedIs(s, f);
    IssuedDistinct(s);
    SubsequenceDistinct(s.executed + Pending(s), s.issued);
    assert FrontHeld(s, NewOrders) && FrontHeld(s, Cancels);
    assert Of(s, NewOrders) == s.orders && Of(s, Cancels) == s.cancels;
    NotHeld(s, f, NewOrders);
    NotHeld(s, f, Cancels);
    InOneOnly(s.executed, Pending(s), f);
  }

  lemma InOneOnly(a: seq<Item>, b: seq<Item>, x: Item)
    requires DistinctIds(a + b) && x in b
    ensures x !in a
  {
    var j :| 0 <= j < |b| && b[j] == x;
    assert (a + b)[|a| + j] == x;
    forall i | 0 <= i < |a| ensures a[i] != x {
      assert (a + b)[i] == a[i];
    }
  }

  /** What waits in a queue is not what a worker holds. */
  lemma NotHeld(s: System, f: Item, j: Kind)
    requires Queued(s) && Stranded(s, f)
    ensures !Of(s, j).worker.Idle? ==> Of(s, j).worker.item != f
  {
    hide Queued, Only, Limits, Subsequence;
    if !Of(s, j).worker.Idle? {
      HolderItem(s, j);
      if j == f.kind {
        ReadLine(s, j);
        ReadSound(s, j);
        var p := Of(s, j);
        var i :| 0 <= i < |p.queue| && p.queue[i] == f;
        var all := Through(p) + Coming(s, j);
        assert all[0] == p.worker.item && all[1 + i] == f;
      }
    }
  }

  /** A stranded request stays so in every run on from there: its ticket never leaves the queue, and nothing issued
      behind it is executed. */
  lemma {:induction false} StrandedStays(s: System, f: Item, actions: seq<Action>, t: System)
    requires Fates(s) && Stranded(s, f) && Reaches(s, actions, t)
    ensures Stranded(t, f) && f in t.tickets && f !in t.executed
    ensures forall z :: Earlier(t.issued, f, z) ==> z !in t.executed
    decreases |actions|
  {
    hide Inv, Kept, Starved, Stranded, Do, Enabled, Earlier;
    if actions == [] {
      StrandedWaits(s, f);
      IssuedDistinct(s);
      forall z | Earlier(s.issued, f, z) ensures z !in s.executed {
        NotBoth(s.issued, f, z);
        if z in s.executed { ExecutedFirst(s, z, f); }
      }
    } else {
      StepFates(s, actions[0]);
      StrandedStep(s, actions[0], f);
      StrandedStays(Do(s, actions[0]), f, actions[1..], t);
    }
  }
}

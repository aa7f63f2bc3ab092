/** One pipeline and its share of the ticket queue: through is what has passed the check, the request nearest to
    execution first; coming is what is still to be checked. The tickets of the pipeline are, in queue order, the
    Limit requests that went through and everything that is coming. */
module TicketLine {
  import opened Tickets
  import opened TicketLists

  ghost predicate Sound(issued: seq<Item>, k: Kind, through: seq<Item>, coming: seq<Item>) {
    && DistinctIds(issued)
    && DistinctIds(through + coming)
    && Subsequence(through + coming, issued)
    && (forall x :: x in through + coming ==> x in issued && x.kind == k && x.Proper())
    && (forall x :: x in through ==> x.complete)
  }

  ghost predicate Lined(tickets: seq<Item>, issued: seq<Item>, k: Kind, through: seq<Item>, coming: seq<Item>) {
    && DistinctIds(tickets)
    && (forall x :: x in tickets ==> x in issued)
    && Sound(issued, k, through, coming)
    && Only(tickets, k) == Limits(through) + coming
  }

  /** Issued requests with the same id are the same. */
  lemma SameId(issued: seq<Item>, x: Item, y: Item)
    requires DistinctIds(issued) && x in issued && y in issued && x.id == y.id
    ensures x == y
  {
    var i :| 0 <= i < |issued| && issued[i] == x;
    var j :| 0 <= j < |issued| && issued[j] == y;
    assert !(i < j) && !(j < i);
  }

  /** A new ticket of the pipeline. */
  lemma LineIssue(tickets: seq<Item>, issued: seq<Item>, k: Kind, through: seq<Item>, coming: seq<Item>, x: Item)
    requires Lined(tickets, issued, k, through, coming)
    requires x.kind == k && x.Proper() && forall y :: y in issued ==> y.id != x.id
    ensures Lined(tickets + [x], issued + [x], k, through, coming + [x])
  {
    hide Only, Limits, Subsequence;
    DistinctAppend(issued, x);
    DistinctAppend(tickets, x);
    DistinctAppend(through + coming, x);
    assert (through + coming) + [x] == through + (coming + [x]);
    SubsequenceBoth(through + coming, issued, x);
    OnlyAppend(tickets, [x], k);
    OnlySingle(x, k);
    assert (Limits(through) + coming) + [x] == Limits(through) + (coming + [x]);
  }

  lemma OnlySingle(x: Item, k: Kind)
    ensures Only([x], k) == if x.kind == k then [x] else []
  {
    assert [x][1..] == [];
  }

  lemma LimitsSingle(x: Item)
    ensures Limits([x]) == if x.limit then [x] else []
  {
    assert [x][1..] == [];
  }

  /** A new ticket of the other pipeline. */
  lemma LineIssueOther(tickets: seq<Item>, issued: seq<Item>, k: Kind, through: seq<Item>, coming: seq<Item>, x: Item)
    requires Lined(tickets, issued, k, through, coming)
    requires x.kind != k && forall y :: y in issued ==> y.id != x.id
    ensures Lined(tickets + [x], issued + [x], k, through, coming)
  {
    hide Only, Limits, Subsequence;
    DistinctAppend(issued, x);
    DistinctAppend(tickets, x);
    SubsequenceLonger(through + coming, issued, x);
    OnlyAppend(tickets, [x], k);
    OnlySingle(x, k);
  }

  lemma Regroup(through: seq<Item>, x: Item, coming: seq<Item>)
    ensures through + ([x] + coming) == (through + [x]) + coming
  {
  }

  /** A Limit request passes the check. */
  lemma LinePass(tickets: seq<Item>, issued: seq<Item>, k: Kind, through: seq<Item>, x: Item, coming: seq<Item>)
    requires Lined(tickets, issued, k, through, [x] + coming)
    requires x.complete && x.limit
    ensures Lined(tickets, issued, k, through + [x], coming)
  {
    hide Only, Limits, Subsequence;
    Regroup(through, x, coming);
    LimitsAppend(through, [x]);
    LimitsSingle(x);
    Regroup(Limits(through), x, coming);
  }

  /** Only the request itself has its id among those of its pipeline. */
  lemma Alone(a: seq<Item>, x: Item, b: seq<Item>)
    requires DistinctIds(a + ([x] + b))
    ensures DistinctIds(a + b)
    ensures forall y :: y in a + b ==> y.id != x.id
  {
    var all := a + ([x] + b);
    assert all[|a|] == x;
    forall i | 0 <= i < |a + b| ensures (a + b)[i].id != x.id {
      if i < |a| { assert all[i] == (a + b)[i]; } else { assert all[i + 1] == (a + b)[i]; }
    }
    forall i, j | 0 <= i < j < |a + b| ensures (a + b)[i].id != (a + b)[j].id {
      var i' := if i < |a| then i else i + 1;
      var j' := if j < |a| then j else j + 1;
      assert all[i'] == (a + b)[i] && all[j'] == (a + b)[j];
    }
  }

  lemma WithoutMiddle(a: seq<Item>, x: Item, b: seq<Item>)
    requires forall y :: y in a || y in b ==> y.id != x.id
    ensures Without(a + ([x] + b), x.id) == a + b
  {
    hide Without;
    WithoutAppend(a, [x] + b, x.id);
    WithoutNone(a, x.id);
    WithoutNone(b, x.id);
    WithoutHead(x, b);
  }

  lemma SubsequenceMiddle(a: seq<Item>, x: Item, b: seq<Item>, c: seq<Item>)
    requires DistinctIds(a + ([x] + b)) && Subsequence(a + ([x] + b), c)
    ensures Subsequence(a + b, c)
  {
    hide Without, Subsequence;
    SubsequenceWithout(a, [x] + b, c, x.id);
    Alone(a, x, b);
    WithoutHead(x, b);
    assert forall y :: y in b ==> y in a + b;
    WithoutNone(b, x.id);
  }

  lemma WithoutHead(x: Item, b: seq<Item>)
    ensures Without([x] + b, x.id) == Without(b, x.id)
  {
    assert ([x] + b)[1..] == b;
  }

  /** The input stage withdraws the ticket of the request it checks and forgets the request. */
  lemma LineDrop(tickets: seq<Item>, issued: seq<Item>, k: Kind, through: seq<Item>, x: Item, coming: seq<Item>)
    requires Lined(tickets, issued, k, through, [x] + coming)
    ensures Lined(Without(tickets, x.id), issued, k, through, coming)
  {
    hide Only, Limits, Subsequence, Without;
    Alone(through, x, coming);
    SubsequenceMiddle(through, x, coming, issued);
    WithoutMembers(tickets, x.id);
    OnlyWithout(tickets, k, x.id);
    LimitsMembers(through);
    assert forall y :: y in through || y in coming ==> y in through + coming;
    WithoutMiddle(Limits(through), x, coming);
    assert forall y :: y in through + coming ==> y in through + ([x] + coming);
  }

  /** A request of another type keeps going although its ticket is withdrawn. */
  lemma LineReport(tickets: seq<Item>, issued: seq<Item>, k: Kind, through: seq<Item>, x: Item, coming: seq<Item>)
    requires Lined(tickets, issued, k, through, [x] + coming)
    requires x.complete && !x.limit
    ensures Lined(Without(tickets, x.id), issued, k, through + [x], coming)
  {
    hide Only, Limits, Subsequence, Without;
    LineDrop(tickets, issued, k, through, x, coming);
    Regroup(through, x, coming);
    LimitsAppend(through, [x]);
    LimitsSingle(x);
  }

  /** A request without a ticket is forgotten. */
  lemma LineForget(tickets: seq<Item>, issued: seq<Item>, k: Kind, through: seq<Item>, x: Item, coming: seq<Item>)
    requires Lined(tickets, issued, k, through + [x], coming)
    requires !x.limit
    ensures Lined(tickets, issued, k, through, coming)
    ensures forall y :: y in tickets ==> y.id != x.id
  {
    hide Only, Limits, Subsequence;
    Regroup(through, x, coming);
    Alone(through, x, coming);
    SubsequenceMiddle(through, x, coming, issued);
    LimitsAppend(through, [x]);
    LimitsSingle(x);
    assert forall y :: y in through + coming ==> y in (through + [x]) + coming;
    OnlyMembers(tickets, k);
    LimitsMembers(through);
    assert x in (through + [x]) + coming;
    forall y | y in tickets ensures y.id != x.id {
      if y.id == x.id { SameId(issued, x, y); }
    }
  }

  /** The holder of the front ticket leaves, and its ticket with it. */
  lemma LinePop(tickets: seq<Item>, issued: seq<Item>, k: Kind, x: Item, through: seq<Item>, coming: seq<Item>)
    requires Lined(tickets, issued, k, [x] + through, coming)
    requires tickets != [] && tickets[0] == x
    ensures Lined(tickets[1..], issued, k, through, coming)
  {
    hide Only, Limits, Subsequence;
    TailOnly(tickets, k);
    OnlyMembers(tickets, k);
    HeadAlone(x, through, coming, issued);
    HeadLimit(x, through, coming);
    SameTail(x, Only(tickets[1..], k), Limits(through) + coming);
  }

  lemma SameTail(x: Item, a: seq<Item>, b: seq<Item>)
    requires [x] + a == [x] + b
    ensures a == b
  {
    assert a == ([x] + a)[1..] == ([x] + b)[1..] == b;
  }

  lemma HeadAlone(x: Item, through: seq<Item>, coming: seq<Item>, issued: seq<Item>)
    requires DistinctIds(([x] + through) + coming) && Subsequence(([x] + through) + coming, issued)
    ensures DistinctIds(through + coming) && Subsequence(through + coming, issued)
    ensures forall y :: y in through + coming ==> y.id != x.id && y in ([x] + through) + coming
    ensures x in ([x] + through) + coming && x !in coming
  {
    hide Subsequence;
    assert [] + ([x] + (through + coming)) == ([x] + through) + coming;
    assert [] + (through + coming) == through + coming;
    Alone([], x, through + coming);
    SubsequenceMiddle([], x, through + coming, issued);
    assert (([x] + through) + coming)[0] == x;
    assert forall y :: y in coming ==> y in through + coming;
  }

  /** A ticket held by the first request says that it is of type Limit. */
  lemma HeadLimit(x: Item, through: seq<Item>, coming: seq<Item>)
    requires x in Limits([x] + through) + coming && x !in coming
    ensures x.limit
    ensures Limits([x] + through) + coming == [x] + (Limits(through) + coming)
  {
    LimitsMembers([x] + through);
    LimitsAppend([x], through);
    LimitsSingle(x);
  }

  lemma TailOnly(tickets: seq<Item>, k: Kind)
    requires tickets != []
    ensures Only(tickets, k) == Only([tickets[0]], k) + Only(tickets[1..], k)
    ensures Only([tickets[0]], k) == if tickets[0].kind == k then [tickets[0]] else []
    ensures DistinctIds(tickets) ==> DistinctIds(tickets[1..])
    ensures forall y :: y in tickets[1..] ==> y in tickets
  {
    OnlySingle(tickets[0], k);
    assert tickets == [tickets[0]] + tickets[1..];
    OnlyAppend([tickets[0]], tickets[1..], k);
  }

  /** The front ticket, of the other pipeline, is popped. */
  lemma LinePopOther(tickets: seq<Item>, issued: seq<Item>, k: Kind, through: seq<Item>, coming: seq<Item>)
    requires Lined(tickets, issued, k, through, coming)
    requires tickets != [] && tickets[0].kind != k
    ensures Lined(tickets[1..], issued, k, through, coming)
  {
    hide Only, Limits, Subsequence;
    TailOnly(tickets, k);
  }

  /** A ticket of the other pipeline, or of nobody, is withdrawn. */
  lemma LineWithdrawOther(tickets: seq<Item>, issued: seq<Item>, k: Kind, through: seq<Item>, coming: seq<Item>, x: Item)
    requires Lined(tickets, issued, k, through, coming)
    requires x in issued && x.kind != k
    ensures Lined(Without(tickets, x.id), issued, k, through, coming)
  {
    hide Only, Limits, Subsequence, Without;
    WithoutMembers(tickets, x.id);
    OnlyWithout(tickets, k, x.id);
    OnlyMembers(tickets, k);
    forall y | y in Only(tickets, k) ensures y.id != x.id {
      if y.id == x.id { SameId(issued, x, y); }
    }
    WithoutNone(Only(tickets, k), x.id);
  }

  /** Withdrawing never removes the front ticket unless the id is its own. */
  lemma FrontKept(tickets: seq<Item>, id: nat)
    requires tickets != [] && tickets[0].id != id
    ensures Without(tickets, id) != [] && Without(tickets, id)[0] == tickets[0]
    ensures Without(tickets, id)[1..] == Without(tickets[1..], id)
  {
  }
}

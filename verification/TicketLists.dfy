/** Lists of requests: the tickets of one pipeline, withdrawing a ticket, and leaving requests out of an order. */
module TicketLists {
  import MatchLemmas
  import opened Tickets

  predicate DistinctIds(items: seq<Item>) { forall i, j :: 0 <= i < j < |items| ==> items[i].id != items[j].id }

  /** The tickets of one pipeline, in queue order. */
  function Only(tickets: seq<Item>, k: Kind): seq<Item> {
    if tickets == [] then [] else (if tickets[0].kind == k then [tickets[0]] else []) + Only(tickets[1..], k)
  }

  /** The requests of type Limit. */
  function Limits(items: seq<Item>): seq<Item> {
    if items == [] then [] else (if items[0].limit then [items[0]] else []) + Limits(items[1..])
  }

  function Without(items: seq<Item>, id: nat): seq<Item> {
    if items == [] then [] else (if items[0].id == id then [] else [items[0]]) + Without(items[1..], id)
  }

  /** a can be obtained from b by leaving items out. */
  predicate Subsequence(a: seq<Item>, b: seq<Item>)
    decreases |b|
  {
    if a == [] then true
    else if b == [] then false
    else if a[|a| - 1] == b[|b| - 1] then Subsequence(a[..|a| - 1], b[..|b| - 1])
    else Subsequence(a, b[..|b| - 1])
  }

  lemma {:induction false} OnlyAppend(a: seq<Item>, b: seq<Item>, k: Kind)
    ensures Only(a + b, k) == Only(a, k) + Only(b, k)
  {
    if a == [] {
      assert a + b == b;
    } else {
      assert (a + b)[1..] == a[1..] + b;
      OnlyAppend(a[1..], b, k);
      MatchLemmas.SeqAssoc(if a[0].kind == k then [a[0]] else [], Only(a[1..], k), Only(b, k));
    }
  }

  lemma {:induction false} LimitsAppend(a: seq<Item>, b: seq<Item>)
    ensures Limits(a + b) == Limits(a) + Limits(b)
  {
    if a == [] {
      assert a + b == b;
    } else {
      assert (a + b)[1..] == a[1..] + b;
      LimitsAppend(a[1..], b);
      MatchLemmas.SeqAssoc(if a[0].limit then [a[0]] else [], Limits(a[1..]), Limits(b));
    }
  }

  lemma {:induction false} OnlyMembers(tickets: seq<Item>, k: Kind)
    ensures forall x :: x in Only(tickets, k) <==> x in tickets && x.kind == k
  {
    if tickets != [] { OnlyMembers(tickets[1..], k); }
  }

  lemma {:induction false} LimitsMembers(items: seq<Item>)
    ensures forall x :: x in Limits(items) <==> x in items && x.limit
  {
    if items != [] { LimitsMembers(items[1..]); }
  }

  lemma {:induction false} WithoutAppend(a: seq<Item>, b: seq<Item>, id: nat)
    ensures Without(a + b, id) == Without(a, id) + Without(b, id)
  {
    if a == [] {
      assert a + b == b;
    } else {
      assert (a + b)[1..] == a[1..] + b;
      WithoutAppend(a[1..], b, id);
    }
  }

  lemma {:induction false} WithoutNone(items: seq<Item>, id: nat)
    requires forall x :: x in items ==> x.id != id
    ensures Without(items, id) == items
  {
    if items != [] { assert items[0] in items; WithoutNone(items[1..], id); }
  }

  lemma {:induction false} OnlyWithout(tickets: seq<Item>, k: Kind, id: nat)
    ensures Only(Without(tickets, id), k) == Without(Only(tickets, k), id)
  {
    if tickets != [] {
      OnlyWithout(tickets[1..], k, id);
      var head := if tickets[0].id == id then [] else [tickets[0]];
      OnlyAppend(head, Without(tickets[1..], id), k);
      WithoutAppend(if tickets[0].kind == k then [tickets[0]] else [], Only(tickets[1..], k), id);
    }
  }

  /** With distinct ids, erasing the last ticket with an id is erasing every ticket with it. */
  lemma {:induction false} FinishIsWithout(tickets: seq<Item>, id: nat)
    requires DistinctIds(tickets)
    ensures Finish(tickets, id) == Without(tickets, id)
  {
    if tickets != [] {
      var n := |tickets| - 1;
      var init, last := tickets[..n], tickets[n];
      assert tickets == init + [last];
      WithoutAppend(init, [last], id);
      assert [last][1..] == [];
      if last.id == id {
        assert forall x :: x in init ==> x.id != id;
        WithoutNone(init, id);
      } else {
        FinishIsWithout(init, id);
      }
    }
  }

  lemma {:induction false} WithoutMembers(items: seq<Item>, id: nat)
    requires DistinctIds(items)
    ensures DistinctIds(Without(items, id))
    ensures forall x :: x in Without(items, id) <==> x in items && x.id != id
  {
    if items != [] {
      var t := items[1..];
      assert forall i :: 0 <= i < |t| ==> t[i] == items[i + 1];
      WithoutMembers(t, id);
      var r := Without(t, id);
      forall x | x in t ensures x.id != items[0].id {
        var i :| 0 <= i < |t| && t[i] == x;
      }
      if items[0].id != id {
        assert Without(items, id) == [items[0]] + r;
      } else {
        assert Without(items, id) == r;
      }
    }
  }

  lemma {:induction false} SubsequenceWithout(a: seq<Item>, t: seq<Item>, b: seq<Item>, id: nat)
    requires Subsequence(a + t, b)
    ensures Subsequence(a + Without(t, id), b)
    decreases |b|
  {
    if t == [] {
      assert a + t == a + Without(t, id);
    } else {
      var n, m := |t| - 1, |b| - 1;
      var init, last := t[..n], t[n];
      assert t == init + [last];
      WithoutAppend(init, [last], id);
      assert [last][1..] == [];
      assert (a + t)[..|a + t| - 1] == a + init;
      if (a + t)[|a + t| - 1] == b[m] {
        SubsequenceWithout(a, init, b[..m], id);
        if last.id == id {
          assert a + Without(t, id) == a + Without(init, id);
          SubsequenceLonger(a + Without(init, id), b[..m], b[m]);
          assert b == b[..m] + [b[m]];
        } else {
          assert (a + Without(t, id))[..|a + Without(t, id)| - 1] == a + Without(init, id);
        }
      } else {
        SubsequenceWithout(a, t, b[..m], id);
        SubsequenceLonger(a + Without(t, id), b[..m], b[m]);
        assert b == b[..m] + [b[m]];
      }
    }
  }

  lemma {:induction false} SubsequenceLonger(a: seq<Item>, b: seq<Item>, x: Item)
    requires Subsequence(a, b)
    ensures Subsequence(a, b + [x])
    decreases |b|, 1
  {
    assert (b + [x])[..|b|] == b;
    if a != [] && a[|a| - 1] == x {
      var n, m := |a| - 1, |b| - 1;
      // the same last item matches one position further back
      SubsequenceShorter(a, b);
    }
  }

  lemma {:induction false} SubsequenceShorter(a: seq<Item>, b: seq<Item>)
    requires Subsequence(a, b) && a != []
    ensures Subsequence(a[..|a| - 1], b)
    decreases |b|, 0
  {
    var n, m := |a| - 1, |b| - 1;
    assert b == b[..m] + [b[m]];
    if a[n] == b[m] {
      SubsequenceLonger(a[..n], b[..m], b[m]);
    } else {
      SubsequenceShorter(a, b[..m]);
      SubsequenceLonger(a[..n], b[..m], b[m]);
    }
  }

  lemma SubsequenceBoth(a: seq<Item>, b: seq<Item>, x: Item)
    requires Subsequence(a, b)
    ensures Subsequence(a + [x], b + [x])
  {
    assert (a + [x])[..|a + [x]| - 1] == a && (b + [x])[..|b + [x]| - 1] == b;
  }

  lemma DistinctAppend(items: seq<Item>, x: Item)
    requires DistinctIds(items)
    requires forall y :: y in items ==> y.id != x.id
    ensures DistinctIds(items + [x])
  {
    forall i, j | 0 <= i < j < |items + [x]| ensures (items + [x])[i].id != (items + [x])[j].id {
      if j == |items| { assert items[i] in items; }
    }
  }

  lemma {:induction false} SubsequenceMembers(a: seq<Item>, b: seq<Item>)
    requires Subsequence(a, b)
    ensures forall x :: x in a ==> x in b
    decreases |b|
  {
    if a != [] {
      assert a == a[..|a| - 1] + [a[|a| - 1]];
      if a[|a| - 1] == b[|b| - 1] {
        SubsequenceMembers(a[..|a| - 1], b[..|b| - 1]);
      } else {
        SubsequenceMembers(a, b[..|b| - 1]);
      }
    }
  }

  lemma {:induction false} SubsequenceDistinct(a: seq<Item>, b: seq<Item>)
    requires Subsequence(a, b) && DistinctIds(b)
    ensures DistinctIds(a)
    decreases |b|
  {
    if a != [] {
      var m := |b| - 1;
      if a[|a| - 1] == b[m] {
        var init := a[..|a| - 1];
        SubsequenceDistinct(init, b[..m]);
        SubsequenceMembers(init, b[..m]);
        forall x | x in init ensures x.id != b[m].id {
          var i :| 0 <= i < m && b[i] == x;
        }
        DistinctAppend(init, b[m]);
        assert a == init + [b[m]];
      } else {
        SubsequenceDistinct(a, b[..m]);
      }
    }
  }
}

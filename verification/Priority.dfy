/** Price-time priority and event accounting of one matching pass. */
module Priority {
  import opened Core
  import opened Matching
  import opened MatchLemmas

  /** The user's own orders among some, in their order. */
  function Own(flat: seq<Resting>, user: UserId): seq<Resting> {
    if flat == [] then []
    else (if flat[0].node.order.userId == user then [flat[0]] else []) + Own(flat[1..], user)
  }

  /** Complete fills of everybody else's orders, in their order. */
  function Whole(flat: seq<Resting>, user: UserId): seq<Fill> {
    if flat == [] then []
    else (if flat[0].node.order.userId == user then []
          else [Fill(flat[0].node, flat[0].price, flat[0].node.order.remainQty)]) + Whole(flat[1..], user)
  }

  /** The pass consumed the first n orders, skipping the user's own, took part of the next one if part is
      positive, and did not touch anything behind. */
  ghost predicate CutAt(flat: seq<Resting>, user: UserId, m: Matched, n: nat, part: Quantity) {
    && n <= |flat|
    && if part == 0.0 then
         m == Matched(Own(flat[..n], user) + flat[n..], Whole(flat[..n], user))
       else
         && n < |flat| && flat[n].node.order.userId != user && 0.0 < part < flat[n].node.order.remainQty
         && var f := Fill(flat[n].node, flat[n].price, part);
            m == Matched(Own(flat[..n], user) + ([Resting(flat[n].price, After(f))] + flat[n + 1..]),
                         Whole(flat[..n], user) + [f])
  }

  /** The first order of a pass is skipped, taken completely, or - if it has more than is wanted - in part. */
  lemma MatchHead(r: Resting, user: UserId, want: Quantity)
    requires r.node.order.Live() && want > 0.0
    ensures var h := MatchOne(r, user, want);
            if r.node.order.userId != user && want < r.node.order.remainQty then
              && h == Matched([Resting(r.price, After(Fill(r.node, r.price, want)))], [Fill(r.node, r.price, want)])
              && Total(h.fills) == want
            else
              && h == Matched(Own([r], user), Whole([r], user))
              && 0.0 <= Total(h.fills) <= want
  {
    hide After;
    assert [r][1..] == [];
  }

  /** The exact shape of every pass: a consumed front, at most one partly taken order, an untouched back. */
  lemma {:induction false} MatchCuts(flat: seq<Resting>, user: UserId, want: Quantity)
    returns (n: nat, part: Quantity)
    requires AllLive(flat) && want >= 0.0
    ensures CutAt(flat, user, Match(flat, user, want), n, part)
    ensures part != 0.0 || n < |flat| ==> Total(Match(flat, user, want).fills) == want
    decreases |flat|
  {
    hide MatchOne, After;
    if flat == [] || want == 0.0 {
      assert flat[..0] == [] && flat[0..] == flat;
      assert Own(flat[..0], user) + flat[0..] == flat;
      return 0, 0.0;
    }
    AllLiveTail(flat);
    MatchHead(flat[0], user, want);
    var h := MatchOne(flat[0], user, want);
    var left := want - Total(h.fills);
    var m := Match(flat[1..], user, left);
    TotalAppend(h.fills, m.fills);
    if flat[0].node.order.userId != user && want < flat[0].node.order.remainQty {
      MatchNothing(flat[1..], user);
      assert flat[..0] == [];
      assert [] + (h.kept + flat[1..]) == h.kept + flat[1..];
      assert [] + h.fills == h.fills + [];
      return 0, want;
    }
    n, part := MatchCuts(flat[1..], user, left);
    CutFirst(flat, user, h, m, n, part);
    n := n + 1;
  }

  lemma CutFirst(flat: seq<Resting>, user: UserId, h: Matched, m: Matched, n: nat, part: Quantity)
    requires flat != [] && CutAt(flat[1..], user, m, n, part)
    requires h.kept == Own([flat[0]], user) && h.fills == Whole([flat[0]], user)
    ensures CutAt(flat, user, Join(h, m), n + 1, part)
  {
    hide After, Own, Whole;
    var t := flat[1..];
    assert flat[..n + 1] == [flat[0]] + t[..n] && flat[n + 1..] == t[n..];
    OwnWholeCons(flat[0], t[..n], user);
    if part == 0.0 {
      SeqAssoc(h.kept, Own(t[..n], user), t[n..]);
    } else {
      var f := Fill(t[n].node, t[n].price, part);
      assert flat[n + 2..] == t[n + 1..];
      SeqAssoc(h.kept, Own(t[..n], user), [Resting(t[n].price, After(f))] + t[n + 1..]);
      SeqAssoc(h.fills, Whole(t[..n], user), [f]);
    }
  }

  lemma OwnWholeCons(r: Resting, t: seq<Resting>, user: UserId)
    ensures Own([r] + t, user) == Own([r], user) + Own(t, user)
    ensures Whole([r] + t, user) == Whole([r], user) + Whole(t, user)
  {
    SeqCons(r, t);
    assert [r][1..] == [];
    assert Own([], user) == [] && Whole([], user) == [];
  }

  lemma {:induction false} OwnMembers(flat: seq<Resting>, user: UserId)
    ensures forall r :: r in Own(flat, user) <==> r in flat && r.node.order.userId == user
  {
    if flat != [] { OwnMembers(flat[1..], user); }
  }

  lemma {:induction false} WholeMembers(flat: seq<Resting>, user: UserId)
    ensures forall f :: f in Whole(flat, user) ==>
              exists i :: 0 <= i < |flat| && f == Fill(flat[i].node, flat[i].price, flat[i].node.order.remainQty)
  {
    if flat != [] {
      WholeMembers(flat[1..], user);
      forall f | f in Whole(flat[1..], user)
        ensures exists i :: 0 <= i < |flat| && f == Fill(flat[i].node, flat[i].price, flat[i].node.order.remainQty)
      {
        var i :| 0 <= i < |flat[1..]|
              && f == Fill(flat[1..][i].node, flat[1..][i].price, flat[1..][i].node.order.remainQty);
        assert flat[1..][i] == flat[i + 1];
      }
    }
  }

  ghost predicate DistinctHandles(flat: seq<Resting>) {
    forall i, j :: 0 <= i < j < |flat| ==> flat[i].node.handle != flat[j].node.handle
  }

  ghost predicate TradedWith(fills: seq<Fill>, node: Node) { exists f :: f in fills && f.before == node }

  ghost predicate StillThere(kept: seq<Resting>, handle: nat) { exists r :: r in kept && r.node.handle == handle }

  /** Where a kept order stood before the pass. */
  lemma KeptOrigin(flat: seq<Resting>, user: UserId, m: Matched, n: nat, part: Quantity, r: Resting) returns (k: nat)
    requires CutAt(flat, user, m, n, part) && r in m.kept
    ensures k < |flat| && r.node.handle == flat[k].node.handle
    ensures flat[k].node.order.userId == user || k >= n
    ensures r == flat[k] || (k == n && part != 0.0 && r.node == After(Fill(flat[n].node, flat[n].price, part)))
    ensures r == flat[k] || r.price == flat[n].price
  {
    hide Filling;
    OwnMembers(flat[..n], user);
    if r in Own(flat[..n], user) {
      k :| 0 <= k < n && flat[..n][k] == r;
    } else if part == 0.0 {
      var j :| 0 <= j < |flat[n..]| && flat[n..][j] == r;
      k := n + j;
    } else if r in flat[n + 1..] {
      var j :| 0 <= j < |flat[n + 1..]| && flat[n + 1..][j] == r;
      k := n + 1 + j;
    } else {
      k := n;
    }
  }

  /** A traded order stood no further back than the cut. */
  lemma TradedPosition(flat: seq<Resting>, user: UserId, m: Matched, n: nat, part: Quantity, j: nat)
    requires CutAt(flat, user, m, n, part) && DistinctHandles(flat)
    requires j < |flat| && TradedWith(m.fills, flat[j].node)
    ensures j <= n
  {
    hide Filling;
    var f :| f in m.fills && f.before == flat[j].node;
    WholeMembers(flat[..n], user);
    if f in Whole(flat[..n], user) {
      var k :| 0 <= k < |flat[..n]|
            && f == Fill(flat[..n][k].node, flat[..n][k].price, flat[..n][k].node.order.remainQty);
      assert flat[..n][k] == flat[k];
    }
  }

  /** The user's own orders stay as they are. */
  lemma OwnStay(flat: seq<Resting>, user: UserId, m: Matched, n: nat, part: Quantity, i: nat)
    requires CutAt(flat, user, m, n, part)
    requires i < |flat| && flat[i].node.order.userId == user
    ensures flat[i] in m.kept
  {
    hide Filling;
    OwnMembers(flat[..n], user);
    if i < n {
      assert flat[..n][i] == flat[i];
    } else if part == 0.0 {
      assert flat[n..][i - n] == flat[i];
    } else {
      assert flat[n + 1..][i - n - 1] == flat[i];
    }
  }

  /** Price-time priority: whatever stood ahead of a traded order and is not the user's own is gone, the
      user's own orders are unchanged, at most one order is left partly filled, and then the want is met. */
  lemma PriceTimePriority(flat: seq<Resting>, user: UserId, want: Quantity)
    requires AllLive(flat) && want >= 0.0 && DistinctHandles(flat)
    ensures var m := Match(flat, user, want);
      && (forall i, j :: 0 <= i < j < |flat| && TradedWith(m.fills, flat[j].node) && flat[i].node.order.userId != user
            ==> !StillThere(m.kept, flat[i].node.handle))
      && (forall i :: 0 <= i < |flat| && flat[i].node.order.userId == user ==> flat[i] in m.kept)
      && (forall r, s :: r in m.kept && s in m.kept && r !in flat && s !in flat ==> r == s)
      && (forall r :: r in m.kept && r !in flat ==> Total(m.fills) == want)
  {
    hide Match, After, Own, Whole;
    var m := Match(flat, user, want);
    var n, part := MatchCuts(flat, user, want);
    forall i: nat, j: nat | 0 <= i < j < |flat| && TradedWith(m.fills, flat[j].node) && flat[i].node.order.userId != user
      ensures !StillThere(m.kept, flat[i].node.handle)
    {
      TradedPosition(flat, user, m, n, part, j);
      if StillThere(m.kept, flat[i].node.handle) {
        var r :| r in m.kept && r.node.handle == flat[i].node.handle;
        var k := KeptOrigin(flat, user, m, n, part, r);
      }
    }
    forall i: nat | i < |flat| && flat[i].node.order.userId == user ensures flat[i] in m.kept {
      OwnStay(flat, user, m, n, part, i);
    }
    forall r, s | r in m.kept && s in m.kept && r !in flat && s !in flat ensures r == s {
      var _ := KeptOrigin(flat, user, m, n, part, r);
      var _ := KeptOrigin(flat, user, m, n, part, s);
    }
    forall r | r in m.kept && r !in flat ensures Total(m.fills) == want {
      var _ := KeptOrigin(flat, user, m, n, part, r);
    }
  }

  // ---- Events ----

  function SumLastQty(events: seq<Event>): Quantity {
    if events == [] then 0.0 else events[0].lastQty + SumLastQty(events[1..])
  }

  /** Every resting event tells the traded quantity and is Filled exactly when nothing remains. */
  lemma {:induction false} ReportsAccount(fills: seq<Fill>)
    requires GoodFills(fills)
    ensures |Reports(fills)| == |fills|
    ensures SumLastQty(Reports(fills)) == Total(fills)
    ensures forall e :: e in Reports(fills) ==> (e.execStatus == Filled <==> e.order.remainQty == 0.0)
  {
    hide Blend;
    if fills != [] {
      assert Reports(fills)[1..] == Reports(fills[1..]);
      ReportsAccount(fills[1..]);
    }
  }

  /** The aggressor after its fills: the quantity is exact, and average times quantity is the money spent. */
  lemma {:induction false} AggressAccount(main: Event, fills: seq<Fill>)
    requires GoodFills(fills) && main.order.CumQty() >= 0.0
    ensures var e := Aggress(main, fills);
            && e.order.remainQty == main.order.remainQty - Total(fills)
            && e.order.originalQty == main.order.originalQty
            && e.order.avgPrice * e.order.CumQty()
               == main.order.avgPrice * main.order.CumQty() + Notional(fills)
            && (fills != [] ==> e.lastQty == fills[|fills| - 1].qty && e.lastPrice == fills[|fills| - 1].price)
            && e.order == main.order.(remainQty := e.order.remainQty, avgPrice := e.order.avgPrice)
            && e.execStatus == main.execStatus
    decreases |fills|
  {
    hide Blend;
    if fills != [] {
      var f := fills[0];
      assert GoodFill(f);
      BlendExact(main.order.CumQty(), main.order.avgPrice, f.qty, f.price);
      AggressAccount(AggressOne(main, f), fills[1..]);
    }
  }
}

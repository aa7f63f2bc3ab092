/** The id map of one side agrees with its price map: the flat list of resting orders determines it. */
module Index {
  import opened Core
  import opened Matching
  import opened MatchLemmas
  import opened Book

  function Ids(flat: seq<Resting>): set<OrderId> {
    if flat == [] then {} else {flat[0].node.order.orderId} + Ids(flat[1..])
  }

  function Handles(flat: seq<Resting>): set<nat> {
    if flat == [] then {} else {flat[0].node.handle} + Handles(flat[1..])
  }

  /** No two resting orders share an id or a node. */
  predicate Unique(flat: seq<Resting>) {
    flat == [] ||
    (&& flat[0].node.order.orderId !in Ids(flat[1..])
     && flat[0].node.handle !in Handles(flat[1..])
     && Unique(flat[1..]))
  }

  /** The id map a flat list stands for. */
  function IndexOf(flat: seq<Resting>): (m: map<OrderId, IdInfo>)
    ensures m.Keys == Ids(flat)
  {
    if flat == [] then map[]
    else IndexOf(flat[1..])[flat[0].node.order.orderId := IdInfo(flat[0].node.handle, flat[0].price)]
  }

  /** What agreement means to a reader of the map: exactly the resting ids, each located, each resting once. */
  lemma {:induction false} IndexLocates(flat: seq<Resting>)
    requires Unique(flat)
    ensures forall r :: r in flat ==> r.node.order.orderId in Ids(flat) && r.node.handle in Handles(flat)
    ensures forall id :: id in Ids(flat) ==>
              exists r :: r in flat && r.node.order.orderId == id && IndexOf(flat)[id] == IdInfo(r.node.handle, r.price)
    ensures forall i, j :: 0 <= i < j < |flat| ==>
              flat[i].node.order.orderId != flat[j].node.order.orderId && flat[i].node.handle != flat[j].node.handle
  {
    if flat != [] {
      var t := flat[1..];
      IndexLocates(t);
      forall id | id in Ids(flat)
        ensures exists r :: r in flat && r.node.order.orderId == id && IndexOf(flat)[id] == IdInfo(r.node.handle, r.price)
      {
        if id == flat[0].node.order.orderId {
          assert flat[0] in flat;
        } else {
          var r :| r in t && r.node.order.orderId == id && IndexOf(t)[id] == IdInfo(r.node.handle, r.price);
          assert r in flat;
        }
      }
      forall i, j | 0 <= i < j < |flat|
        ensures flat[i].node.order.orderId != flat[j].node.order.orderId && flat[i].node.handle != flat[j].node.handle
      {
        assert flat[j] == t[j - 1];
        if i > 0 { assert flat[i] == t[i - 1]; } else { assert t[j - 1] in t; }
      }
    }
  }

  // ---- A pass ----

  lemma GoneAppend(a: seq<Fill>, b: seq<Fill>)
    ensures Gone(a + b) == Gone(a) + Gone(b)
  {
    forall id | id in Gone(a) + Gone(b) ensures id in Gone(a + b) {
      var f :| f in a + b && f.qty == f.before.order.remainQty && f.before.order.orderId == id;
    }
  }

  /** What one side's identifications look like before and after losing some ids. */
  ghost predicate Shrunk(flat: seq<Resting>, kept: seq<Resting>, gone: set<OrderId>) {
    && Unique(kept)
    && gone <= Ids(flat)
    && Handles(kept) <= Handles(flat)
    && IndexOf(kept) == IndexOf(flat) - gone
  }

  lemma MatchOneShrinks(r: Resting, user: UserId, want: Quantity)
    ensures var h := MatchOne(r, user, want);
      && |h.kept| <= 1 && Gone(h.fills) <= {r.node.order.orderId}
      && (if |h.kept| == 1 then
            && h.kept[0].node.handle == r.node.handle
            && h.kept[0].node.order.orderId == r.node.order.orderId
            && h.kept[0].price == r.price
            && Gone(h.fills) == {}
          else Gone(h.fills) == {r.node.order.orderId})
  {
    hide Blend;
    var h := MatchOne(r, user, want);
    if r.node.order.userId != user && h.kept == [] {
      assert h.fills[0] in h.fills;
    }
  }

  /** A pass keeps the map in agreement: exactly the exhausted orders' ids leave. */
  lemma {:induction false} MatchShrinks(flat: seq<Resting>, user: UserId, want: Quantity)
    requires Unique(flat)
    ensures var m := Match(flat, user, want); Shrunk(flat, m.kept, Gone(m.fills))
    decreases |flat|
  {
    hide MatchOne, Total, Gone, Shrunk;
    if flat == [] || want == 0.0 {
      NothingShrinks(flat);
    } else {
      var h := MatchOne(flat[0], user, want);
      MatchOneShrinks(flat[0], user, want);
      var left := want - Total(h.fills);
      MatchShrinks(flat[1..], user, left);
      var m := Match(flat[1..], user, left);
      GoneAppend(h.fills, m.fills);
      ShrinksInFront(flat[0], flat[1..], h.kept, Gone(h.fills), m.kept, Gone(m.fills));
      assert [flat[0]] + flat[1..] == flat;
    }
  }

  lemma NothingShrinks(flat: seq<Resting>)
    requires Unique(flat)
    ensures Shrunk(flat, flat, Gone([]))
  {
    assert Gone([]) == {};
    assert IndexOf(flat) - {} == IndexOf(flat);
  }

  /** One order in front of a shrunk list, itself kept or gone. */
  lemma ShrinksInFront(r: Resting, flat: seq<Resting>, h: seq<Resting>, hGone: set<OrderId>, kept: seq<Resting>, gone: set<OrderId>)
    requires Unique([r] + flat) && Shrunk(flat, kept, gone) && |h| <= 1
    requires if |h| == 1 then
               && h[0].node.handle == r.node.handle && h[0].node.order.orderId == r.node.order.orderId
               && h[0].price == r.price && hGone == {}
             else hGone == {r.node.order.orderId}
    ensures Shrunk([r] + flat, h + kept, hGone + gone)
  {
    hide Unique, Ids, Handles, IndexOf;
    UniqueCons(r, flat);
    assert IndexOf(kept).Keys <= IndexOf(flat).Keys;
    if |h| == 1 {
      assert h + kept == [h[0]] + kept;
      UniqueCons(h[0], kept);
      assert hGone + gone == gone;
    } else {
      assert h + kept == kept;
    }
  }

  lemma {:induction false} UniqueAppend(a: seq<Resting>, b: seq<Resting>)
    ensures Ids(a + b) == Ids(a) + Ids(b) && Handles(a + b) == Handles(a) + Handles(b)
    ensures IndexOf(a + b) == IndexOf(b) + IndexOf(a)
    ensures Unique(a + b) <==> Unique(a) && Unique(b) && Ids(a) !! Ids(b) && Handles(a) !! Handles(b)
  {
    hide Unique, Ids, Handles, IndexOf;
    UniqueNil();
    if a == [] {
      assert a + b == b;
      assert IndexOf(b) + map[] == IndexOf(b);
    } else {
      var r, t := a[0], a[1..];
      assert a == [r] + t;
      SeqAssoc([r], t, b);
      UniqueCons(r, t);
      UniqueCons(r, t + b);
      UniqueAppend(t, b);
      assert IndexOf(b) + IndexOf(t)[r.node.order.orderId := IdInfo(r.node.handle, r.price)]
          == (IndexOf(b) + IndexOf(t))[r.node.order.orderId := IdInfo(r.node.handle, r.price)];
    }
  }

  lemma UniqueNil()
    ensures Unique([]) && Ids([]) == {} && Handles([]) == {} && IndexOf([]) == map[]
  {
  }

  /** The same with untouched orders behind the ones the pass went through. */
  lemma MatchFrontShrinks(front: seq<Resting>, back: seq<Resting>, user: UserId, want: Quantity)
    requires Unique(front + back)
    ensures var m := Match(front, user, want); Shrunk(front + back, m.kept + back, Gone(m.fills))
  {
    hide Match, Ids, Handles, IndexOf, Gone;
    var m := Match(front, user, want);
    UniqueAppend(front, back);
    MatchShrinks(front, user, want);
    UniqueAppend(m.kept, back);
    assert IndexOf(m.kept).Keys <= IndexOf(front).Keys;
    assert IndexOf(m.kept + back) == IndexOf(front + back) - Gone(m.fills);
  }

  // ---- Resting an order ----

  /** Price-time insertion into the flat list: behind everything at the same or a better price. */
  function InsertFlat(flat: seq<Resting>, descending: bool, r: Resting): seq<Resting> {
    if flat == [] || Before(descending, r.price, flat[0].price) then [r] + flat
    else [flat[0]] + InsertFlat(flat[1..], descending, r)
  }

  lemma {:induction false} InsertSkips(front: seq<Resting>, back: seq<Resting>, descending: bool, r: Resting)
    requires forall x :: x in front ==> !Before(descending, r.price, x.price)
    ensures InsertFlat(front + back, descending, r) == front + InsertFlat(back, descending, r)
  {
    if front == [] {
      assert front + back == back;
    } else {
      assert front[0] in front;
      assert (front + back)[1..] == front[1..] + back;
      InsertSkips(front[1..], back, descending, r);
    }
  }

  lemma {:induction false} FlattenPrices(levels: seq<Level>)
    ensures forall r :: r in Flatten(levels) ==> exists i :: 0 <= i < |levels| && r.price == levels[i].price
  {
    if levels != [] {
      FlattenPrices(levels[1..]);
      forall r | r in Flatten(levels) ensures exists i :: 0 <= i < |levels| && r.price == levels[i].price {
        if r in Tag(levels[0].price, levels[0].nodes) {
          assert r.price == levels[0].price;
        } else {
          var i :| 0 <= i < |levels[1..]| && r.price == levels[1..][i].price;
          assert levels[1..][i] == levels[i + 1];
        }
      }
    }
  }

  lemma SortedTail(levels: seq<Level>, descending: bool)
    requires levels != [] && SortedLevels(levels, descending)
    ensures SortedLevels(levels[1..], descending)
    ensures forall r :: r in Flatten(levels[1..]) ==> Before(descending, levels[0].price, r.price)
  {
    var t := levels[1..];
    assert forall i :: 0 <= i < |t| ==> t[i] == levels[i + 1];
    FlattenPrices(t);
  }

  /** Appending to the level found or created in the price map is price-time insertion. */
  lemma {:induction false} RestInserts(levels: seq<Level>, descending: bool, price: Price, node: Node)
    requires SortedLevels(levels, descending)
    ensures Flatten(Rest(levels, descending, price, node))
         == InsertFlat(Flatten(levels), descending, Resting(price, node))
  {
    var r := Resting(price, node);
    if levels == [] {
      assert Tag(price, [node]) == [r];
      assert Flatten([Level(price, [node])]) == [r];
    } else if Before(descending, price, levels[0].price) {
      assert Tag(price, [node]) == [r];
      assert ([Level(price, [node])] + levels)[1..] == levels;
      InsertInFront(levels, descending, r);
    } else if levels[0].price == price {
      SortedTail(levels, descending);
      var front := Tag(price, levels[0].nodes);
      var back := Flatten(levels[1..]);
      assert Tag(price, levels[0].nodes + [node]) == front + [r];
      InsertSkips(front, back, descending, r);
      assert back == [] || back[0] in back;
      assert front + ([r] + back) == (front + [r]) + back;
    } else {
      SortedTail(levels, descending);
      RestInserts(levels[1..], descending, price, node);
      InsertSkips(Tag(levels[0].price, levels[0].nodes), Flatten(levels[1..]), descending, r);
      var t := Rest(levels[1..], descending, price, node);
      assert ([levels[0]] + t)[1..] == t;
    }
  }

  lemma {:induction false} RestSorted(levels: seq<Level>, descending: bool, price: Price, node: Node)
    requires SortedLevels(levels, descending)
    ensures SortedLevels(Rest(levels, descending, price, node), descending)
    ensures forall l :: l in Rest(levels, descending, price, node) ==>
              l.price == price || exists i :: 0 <= i < |levels| && levels[i].price == l.price
  {
    if levels != [] && !Before(descending, price, levels[0].price) && levels[0].price != price {
      assert forall i :: 0 <= i < |levels[1..]| ==> levels[1..][i] == levels[i + 1];
      RestSorted(levels[1..], descending, price, node);
      var t := Rest(levels[1..], descending, price, node);
      forall l | l in [levels[0]] + t
        ensures l.price == price || exists i :: 0 <= i < |levels| && levels[i].price == l.price
      {
        if l in t && l.price != price {
          var i :| 0 <= i < |levels[1..]| && levels[1..][i].price == l.price;
          assert levels[i + 1].price == l.price;
        }
      }
      forall j | 0 <= j < |t| ensures Before(descending, levels[0].price, t[j].price) {
        assert t[j] in t;
      }
    }
  }

  lemma InsertInFront(levels: seq<Level>, descending: bool, r: Resting)
    requires levels != [] && SortedLevels(levels, descending) && Before(descending, r.price, levels[0].price)
    ensures InsertFlat(Flatten(levels), descending, r) == [r] + Flatten(levels)
  {
    var flat := Flatten(levels);
    if flat != [] {
      FlattenPrices(levels);
      assert flat[0] in flat;
    }
  }

  lemma {:induction false} InsertMembers(flat: seq<Resting>, descending: bool, r: Resting)
    ensures forall x :: x in InsertFlat(flat, descending, r) <==> x in flat || x == r
  {
    if flat != [] { InsertMembers(flat[1..], descending, r); }
  }

  lemma {:induction false} InsertSum(flat: seq<Resting>, descending: bool, r: Resting)
    ensures SumRemain(InsertFlat(flat, descending, r)) == SumRemain(flat) + r.node.order.remainQty
  {
    if flat != [] { InsertSum(flat[1..], descending, r); }
  }

  lemma {:induction false} InsertUnique(flat: seq<Resting>, descending: bool, r: Resting)
    requires Unique(flat) && r.node.order.orderId !in Ids(flat) && r.node.handle !in Handles(flat)
    ensures var f := InsertFlat(flat, descending, r);
            && Unique(f) && Ids(f) == Ids(flat) + {r.node.order.orderId} && Handles(f) == Handles(flat) + {r.node.handle}
            && IndexOf(f) == IndexOf(flat)[r.node.order.orderId := IdInfo(r.node.handle, r.price)]
  {
    hide Unique, Ids, Handles, IndexOf;
    UniqueCons(r, flat);
    if flat != [] && !Before(descending, r.price, flat[0].price) {
      var x, t := flat[0], flat[1..];
      assert flat == [x] + t;
      UniqueCons(x, t);
      InsertUnique(t, descending, r);
      UniqueCons(x, InsertFlat(t, descending, r));
      UpdateSwap(IndexOf(t), r.node.order.orderId, IdInfo(r.node.handle, r.price),
                 x.node.order.orderId, IdInfo(x.node.handle, x.price));
    }
  }

  lemma UniqueCons(r: Resting, t: seq<Resting>)
    ensures Unique([r] + t) <==> r.node.order.orderId !in Ids(t) && r.node.handle !in Handles(t) && Unique(t)
    ensures Ids([r] + t) == {r.node.order.orderId} + Ids(t) && Handles([r] + t) == {r.node.handle} + Handles(t)
    ensures IndexOf([r] + t) == IndexOf(t)[r.node.order.orderId := IdInfo(r.node.handle, r.price)]
  {
    SeqCons(r, t);
  }

  lemma UpdateSwap(m: map<OrderId, IdInfo>, a: OrderId, x: IdInfo, b: OrderId, y: IdInfo)
    requires a != b
    ensures m[a := x][b := y] == m[b := y][a := x]
  {
  }

  // ---- Taking an order out ----

  function RemoveFlat(flat: seq<Resting>, handle: nat): seq<Resting> {
    if flat == [] then []
    else if flat[0].node.handle == handle then flat[1..]
    else [flat[0]] + RemoveFlat(flat[1..], handle)
  }

  function FindFlat(flat: seq<Resting>, handle: nat): Option<Order> {
    if flat == [] then None
    else if flat[0].node.handle == handle then Some(flat[0].node.order)
    else FindFlat(flat[1..], handle)
  }

  lemma {:induction false} EraseNodeIsRemove(price: Price, nodes: seq<Node>, back: seq<Resting>, handle: nat)
    ensures FindNode(nodes, handle).Some? ==>
              Tag(price, EraseNode(nodes, handle)) + back == RemoveFlat(Tag(price, nodes) + back, handle)
    ensures FindNode(nodes, handle).None? ==>
              Tag(price, nodes) + RemoveFlat(back, handle) == RemoveFlat(Tag(price, nodes) + back, handle)
    ensures FindFlat(Tag(price, nodes) + back, handle)
         == if FindNode(nodes, handle).Some? then FindNode(nodes, handle) else FindFlat(back, handle)
  {
    hide Tag;
    TagNil(price);
    if nodes == [] {
      assert [] + back == back;
      assert [] + RemoveFlat(back, handle) == RemoveFlat(back, handle);
    } else {
      var r, t := Resting(price, nodes[0]), Tag(price, nodes[1..]);
      assert nodes == [nodes[0]] + nodes[1..];
      TagCons(price, nodes[0], nodes[1..]);
      SeqAssoc([r], t, back);
      SeqCons(r, t + back);
      if nodes[0].handle != handle {
        EraseNodeIsRemove(price, nodes[1..], back, handle);
        var e := EraseNode(nodes[1..], handle);
        TagCons(price, nodes[0], e);
        SeqAssoc([r], Tag(price, e), back);
        SeqAssoc([r], t, RemoveFlat(back, handle));
      }
    }
  }

  lemma TagNil(price: Price)
    ensures Tag(price, []) == []
  {
  }

  lemma TagCons(price: Price, node: Node, nodes: seq<Node>)
    ensures Tag(price, [node] + nodes) == [Resting(price, node)] + Tag(price, nodes)
  {
  }

  lemma {:induction false} FindNodeMember(nodes: seq<Node>, handle: nat)
    ensures FindNode(nodes, handle).Some? <==> exists n :: n in nodes && n.handle == handle
  {
    if nodes != [] {
      FindNodeMember(nodes[1..], handle);
      assert nodes[0] in nodes;
    }
  }

  lemma InTag(price: Price, nodes: seq<Node>, r: Resting)
    ensures r in Tag(price, nodes) <==> r.price == price && r.node in nodes
  {
    if r.price == price && r.node in nodes {
      var i :| 0 <= i < |nodes| && nodes[i] == r.node;
      assert Tag(price, nodes)[i] == r;
    }
  }

  /** Erasing and reading through a map entry that locates an order is removing and finding its node. */
  lemma {:induction false} EraseIsRemove(levels: seq<Level>, descending: bool, r: Resting)
    requires SortedLevels(levels, descending) && Unique(Flatten(levels)) && r in Flatten(levels)
    ensures var info := IdInfo(r.node.handle, r.price);
            && Flatten(Erase(levels, info)) == RemoveFlat(Flatten(levels), r.node.handle)
            && Deref(levels, info) == FindFlat(Flatten(levels), r.node.handle)
            && |Erase(levels, info)| == |levels|
            && forall i :: 0 <= i < |levels| ==> Erase(levels, info)[i].price == levels[i].price
  {
    hide IndexOf, Handles, Ids, Tag, RemoveFlat, FindFlat, EraseNode, FindNode;
    var info := IdInfo(r.node.handle, r.price);
    var front := Tag(levels[0].price, levels[0].nodes);
    var back := Flatten(levels[1..]);
    SortedTail(levels, descending);
    UniqueAppend(front, back);
    EraseNodeIsRemove(levels[0].price, levels[0].nodes, back, r.node.handle);
    FindNodeMember(levels[0].nodes, r.node.handle);
    InTag(levels[0].price, levels[0].nodes, r);
    if levels[0].price == r.price {
      FlattenCons(Level(info.price, EraseNode(levels[0].nodes, info.node)), levels[1..]);
    } else {
      assert r in back;
      IndexLocates(back);
      IndexLocates(front);
      forall n | n in levels[0].nodes ensures n.handle != r.node.handle {
        InTag(levels[0].price, levels[0].nodes, Resting(levels[0].price, n));
      }
      EraseIsRemove(levels[1..], descending, r);
      SeqCons(levels[0], Erase(levels[1..], info));
      FlattenCons(levels[0], Erase(levels[1..], info));
    }
  }

  lemma {:induction false} RemoveIndex(flat: seq<Resting>, r: Resting)
    requires Unique(flat) && r in flat
    ensures var f := RemoveFlat(flat, r.node.handle);
            && Unique(f) && Handles(f) <= Handles(flat)
            && IndexOf(f) == IndexOf(flat) - {r.node.order.orderId}
  {
    var t := flat[1..];
    var id := r.node.order.orderId;
    IndexLocates(t);
    if flat[0].node.handle == r.node.handle {
      assert flat[0] == r;
      assert IndexOf(t)[id := IdInfo(r.node.handle, r.price)] - {id} == IndexOf(t);
    } else {
      RemoveIndex(t, r);
      var f := RemoveFlat(t, r.node.handle);
      assert ([flat[0]] + f)[1..] == f;
      assert Ids(f) == IndexOf(f).Keys;
      UpdateThenDrop(IndexOf(t), flat[0].node.order.orderId, IdInfo(flat[0].node.handle, flat[0].price), id);
    }
  }

  lemma UpdateThenDrop(m: map<OrderId, IdInfo>, key: OrderId, info: IdInfo, id: OrderId)
    requires key != id
    ensures (m - {id})[key := info] == m[key := info] - {id}
  {
  }

  lemma {:induction false} RemoveSum(flat: seq<Resting>, r: Resting)
    requires Unique(flat) && r in flat
    ensures var f := RemoveFlat(flat, r.node.handle);
            && (forall x :: x in f ==> x in flat && x != r)
            && SumRemain(f) == SumRemain(flat) - r.node.order.remainQty
            && FindFlat(flat, r.node.handle) == Some(r.node.order)
  {
    var t := flat[1..];
    IndexLocates(t);
    if flat[0].node.handle == r.node.handle {
      assert flat[0] == r;
    } else {
      RemoveSum(t, r);
      var f := RemoveFlat(t, r.node.handle);
      assert ([flat[0]] + f)[1..] == f;
    }
  }
}

/** What one matching pass guarantees, and that the level-by-level form computes the same pass. */
module MatchLemmas {
  import opened Core
  import opened Matching
  import Tick

  // ---- Sums, lists and folds ----

  lemma {:induction false} TotalAppend(a: seq<Fill>, b: seq<Fill>)
    ensures Total(a + b) == Total(a) + Total(b)
    ensures Notional(a + b) == Notional(a) + Notional(b)
  {
    if a == [] {
      assert a + b == b;
    } else {
      assert (a + b)[1..] == a[1..] + b;
      TotalAppend(a[1..], b);
    }
  }

  lemma TotalNothing()
    ensures Total([]) == 0.0
  {
  }

  lemma {:induction false} AggressAppend(main: Event, a: seq<Fill>, b: seq<Fill>)
    ensures Aggress(main, a + b) == Aggress(Aggress(main, a), b)
    decreases |a|
  {
    if a == [] {
      assert a + b == b;
    } else {
      assert (a + b)[1..] == a[1..] + b;
      AggressAppend(AggressOne(main, a[0]), a[1..], b);
    }
  }

  lemma {:induction false} FlattenAppend(a: seq<Level>, b: seq<Level>)
    ensures Flatten(a + b) == Flatten(a) + Flatten(b)
  {
    if a == [] {
      assert a + b == b;
    } else {
      assert (a + b)[1..] == a[1..] + b;
      FlattenAppend(a[1..], b);
    }
  }

  lemma SeqAssoc<T>(a: seq<T>, b: seq<T>, c: seq<T>)
    ensures (a + b) + c == a + (b + c)
  {
  }

  lemma SeqCons<T>(x: T, t: seq<T>)
    ensures ([x] + t)[0] == x && ([x] + t)[1..] == t && |[x] + t| == |t| + 1
  {
  }

  lemma FlattenCons(level: Level, rest: seq<Level>)
    ensures Flatten([level] + rest) == Tag(level.price, level.nodes) + Flatten(rest)
  {
    SeqCons(level, rest);
  }

  function SumRemain(flat: seq<Resting>): Quantity {
    if flat == [] then 0.0 else flat[0].node.order.remainQty + SumRemain(flat[1..])
  }

  lemma {:induction false} SumRemainAppend(a: seq<Resting>, b: seq<Resting>)
    ensures SumRemain(a + b) == SumRemain(a) + SumRemain(b)
  {
    if a == [] {
      assert a + b == b;
    } else {
      assert (a + b)[1..] == a[1..] + b;
      SumRemainAppend(a[1..], b);
    }
  }

  lemma AllLiveTail(flat: seq<Resting>)
    requires AllLive(flat) && flat != []
    ensures flat[0].node.order.Live() && AllLive(flat[1..])
  {
    assert flat[0] in flat;
  }

  // ---- One fill ----

  lemma RemainderLive(f: Fill)
    requires GoodFill(f)
    ensures AllLive(Remainder(f))
    ensures SumRemain(Remainder(f)) == f.before.order.remainQty - f.qty
  {
    if f.qty != f.before.order.remainQty {
      assert Remainder(f)[1..] == [];
    }
  }

  // ---- The pass as a whole ----

  /** Every fill is good, what stays is live, quantity is conserved, and unless the want is met only the
      user's own orders stay. */
  ghost predicate Sound(flat: seq<Resting>, user: UserId, want: Quantity, m: Matched) {
    && GoodFills(m.fills) && AllLive(m.kept)
    && 0.0 <= Total(m.fills) <= want
    && SumRemain(flat) == SumRemain(m.kept) + Total(m.fills)
    && (forall f :: f in m.fills ==> f.before.order.userId != user)
    && (Total(m.fills) < want ==>
          && (forall r :: r in m.kept ==> r.node.order.userId == user)
          && (forall f :: f in m.fills ==> f.qty == f.before.order.remainQty))
  }

  lemma MatchOneSound(r: Resting, user: UserId, want: Quantity)
    requires r.node.order.Live() && want > 0.0
    ensures Sound([r], user, want, MatchOne(r, user, want))
  {
    if r.node.order.userId != user {
      RemainderLive(Fill(r.node, r.price, Min(r.node.order.remainQty, want)));
    }
  }

  lemma SoundJoin(a: seq<Resting>, b: seq<Resting>, user: UserId, want: Quantity, left: Quantity, h: Matched, m: Matched)
    requires Sound(a, user, want, h) && left == want - Total(h.fills) && Sound(b, user, left, m)
    ensures Sound(a + b, user, want, Join(h, m))
  {
    hide Total, SumRemain, GoodFill;
    TotalAppend(h.fills, m.fills);
    SumRemainAppend(h.kept, m.kept);
    SumRemainAppend(a, b);
  }

  lemma {:induction false} MatchSound(flat: seq<Resting>, user: UserId, want: Quantity)
    requires AllLive(flat) && want >= 0.0
    ensures Sound(flat, user, want, Match(flat, user, want))
    decreases |flat|
  {
    hide MatchOne, Sound, SumRemain;
    if flat == [] || want == 0.0 {
      NothingSound(flat, user, want);
    } else {
      AllLiveTail(flat);
      MatchOneSound(flat[0], user, want);
      var h := MatchOne(flat[0], user, want);
      var left := want - Total(h.fills);
      SoundLeft([flat[0]], user, want, h);
      MatchSound(flat[1..], user, left);
      SoundJoin([flat[0]], flat[1..], user, want, left, h, Match(flat[1..], user, left));
      assert [flat[0]] + flat[1..] == flat;
    }
  }

  lemma NothingSound(flat: seq<Resting>, user: UserId, want: Quantity)
    requires AllLive(flat) && want >= 0.0 && (flat == [] || want == 0.0)
    ensures Sound(flat, user, want, Matched(flat, []))
  {
  }

  lemma SoundLeft(flat: seq<Resting>, user: UserId, want: Quantity, m: Matched)
    requires Sound(flat, user, want, m)
    ensures want - Total(m.fills) >= 0.0
  {
  }

  lemma MatchEmpty(user: UserId, want: Quantity)
    ensures Match([], user, want) == Matched([], [])
  {
  }

  lemma MatchNothing(flat: seq<Resting>, user: UserId)
    ensures Match(flat, user, 0.0) == Matched(flat, [])
  {
  }

  lemma JoinAssoc(a: Matched, b: Matched, c: Matched)
    ensures Join(Join(a, b), c) == Join(a, Join(b, c))
  {
    SeqAssoc(a.kept, b.kept, c.kept);
    SeqAssoc(a.fills, b.fills, c.fills);
  }

  lemma JoinNothing(m: Matched)
    ensures Join(m, Matched([], [])) == m && Join(Matched([], []), m) == m
  {
    assert m.kept + [] == m.kept && m.fills + [] == m.fills;
    assert [] + m.kept == m.kept && [] + m.fills == m.fills;
  }

  /** Matching a concatenation is matching its parts in turn, the second with what is left. */
  lemma {:induction false} MatchAppend(a: seq<Resting>, b: seq<Resting>, user: UserId,
                                       want: Quantity, left: Quantity)
    requires left == want - Total(Match(a, user, want).fills)
    ensures Match(a + b, user, want) == Join(Match(a, user, want), Match(b, user, left))
    decreases |a|
  {
    hide MatchOne, Total;
    TotalNothing();
    if a == [] {
      assert a + b == b;
      JoinNothing(Match(b, user, want));
    } else if want != 0.0 {
      assert (a + b)[1..] == a[1..] + b && (a + b)[0] == a[0];
      var h := MatchOne(a[0], user, want);
      var rest := want - Total(h.fills);
      var m := Match(a[1..], user, rest);
      TotalAppend(h.fills, m.fills);
      MatchAppend(a[1..], b, user, rest, left);
      JoinAssoc(h, m, Match(b, user, left));
    }
  }

  /** Matching one level is matching its orders tagged with its price. */
  lemma {:induction false} MatchNodesIsMatch(price: Price, nodes: seq<Node>, user: UserId, want: Quantity)
    ensures var l := MatchNodes(price, nodes, user, want);
            Match(Tag(price, nodes), user, want) == Matched(Tag(price, l.nodes), l.fills)
    decreases |nodes|
  {
    hide MatchOne, MatchNode, Total;
    if nodes != [] && want != 0.0 {
      assert Tag(price, nodes)[1..] == Tag(price, nodes[1..]) && Tag(price, nodes)[0] == Resting(price, nodes[0]);
      var h := MatchNode(price, nodes[0], user, want);
      MatchNodeIsMatchOne(price, nodes[0], user, want);
      var left := want - Total(h.fills);
      MatchNodesIsMatch(price, nodes[1..], user, left);
      var l := MatchNodes(price, nodes[1..], user, left);
      assert Tag(price, h.nodes + l.nodes) == Tag(price, h.nodes) + Tag(price, l.nodes);
    }
  }

  lemma MatchNodeIsMatchOne(price: Price, node: Node, user: UserId, want: Quantity)
    ensures var h := MatchNode(price, node, user, want);
            MatchOne(Resting(price, node), user, want) == Matched(Tag(price, h.nodes), h.fills)
  {
    hide After;
  }

  // ---- The sweep refines the pass ----

  /** One level in front of a list of levels: the pass goes on behind it with what is left. */
  lemma MatchFirstLevel(level: Level, rest: seq<Level>, user: UserId, want: Quantity, left: Quantity)
    requires left == want - Total(MatchNodes(level.price, level.nodes, user, want).fills)
    ensures var l := MatchNodes(level.price, level.nodes, user, want);
            Match(Flatten([level] + rest), user, want)
            == Join(Matched(Tag(level.price, l.nodes), l.fills), Match(Flatten(rest), user, left))
  {
    assert ([level] + rest)[1..] == rest;
    MatchNodesIsMatch(level.price, level.nodes, user, want);
    MatchAppend(Tag(level.price, level.nodes), Flatten(rest), user, want, left);
  }

  /** How far a sweep got, and that nothing but the orders it reached decided its outcome. */
  ghost predicate SweptAs(levels: seq<Level>, side: Side, limit: Price, user: UserId, want: Quantity, s: Sweep) {
    && s.entered <= |levels| && |s.levels| == |levels|
    && (forall i :: 0 <= i < s.entered ==> Reaches(side, levels[i].price, limit))
    && (forall i :: 0 <= i < |levels| ==> s.levels[i].price == levels[i].price)
    && var m := Match(Flatten(levels[..s.entered]), user, want);
       && s.fills == m.fills
       && Flatten(s.levels) == m.kept + Flatten(levels[s.entered..])
       && (s.blocked ==> !side.Plain() && Total(s.fills) != want)
       && (Total(s.fills) != want && !s.blocked && s.entered < |levels| ==>
             !Reaches(side, levels[s.entered].price, limit))
  }

  lemma SweepUnfolds(todo: seq<Level>, side: Side, limit: Price, user: UserId, left: Quantity, tick: Tick.TickState,
                     left': Quantity)
    requires todo != [] && Reaches(side, todo[0].price, limit) && Tick.Allows(tick, side)
    requires left' == left - Total(MatchNodes(todo[0].price, todo[0].nodes, user, left).fills)
    ensures var m := MatchNodes(todo[0].price, todo[0].nodes, user, left);
            var level := Level(todo[0].price, m.nodes);
            var r := SweepLevels(todo[1..], side, limit, user, left', Tick.TradeAll(tick, Prices(m.fills)));
            SweepLevels(todo, side, limit, user, left, tick) ==
              if left' == 0.0 then Sweep([level] + todo[1..], m.fills, false, 1)
              else Sweep([level] + r.levels, m.fills + r.fills, r.blocked, r.entered + 1)
  {
    hide MatchNodes, Reaches, Tick.Allows;
  }

  /** For every side, the sweep is one pass over the flattened levels it entered; the rest is untouched. */
  lemma {:induction false} SweepIsMatch(levels: seq<Level>, side: Side, limit: Price, user: UserId,
                                        want: Quantity, tick: Tick.TickState)
    requires want != 0.0
    ensures SweptAs(levels, side, limit, user, want, SweepLevels(levels, side, limit, user, want, tick))
    decreases |levels|
  {
    hide MatchNodes, Match, Total, Tick.TradeAll, SweptAs, Flatten, Tick.Allows, Reaches;
    var s := SweepLevels(levels, side, limit, user, want, tick);
    if levels == [] || !Reaches(side, levels[0].price, limit) || !Tick.Allows(tick, side) {
      NotEntered(levels, side, limit, user, want, tick);
    } else {
      var m := MatchNodes(levels[0].price, levels[0].nodes, user, want);
      var level := Level(levels[0].price, m.nodes);
      var left := want - Total(m.fills);
      if left == 0.0 {
        WantMet(levels, side, limit, user, want, level, m.fills);
      } else {
        var t := Tick.TradeAll(tick, Prices(m.fills));
        var tail := SweepLevels(levels[1..], side, limit, user, left, t);
        SweepIsMatch(levels[1..], side, limit, user, left, t);
        SweepStep(levels, side, limit, user, want, left, level, m.fills, tail);
      }
    }
  }

  /** A sweep that does not enter the first level. */
  lemma NotEntered(levels: seq<Level>, side: Side, limit: Price, user: UserId, want: Quantity, tick: Tick.TickState)
    requires want != 0.0
    requires levels == [] || !Reaches(side, levels[0].price, limit) || !Tick.Allows(tick, side)
    ensures SweptAs(levels, side, limit, user, want, SweepLevels(levels, side, limit, user, want, tick))
  {
    hide Match, Total, MatchNodes;
    assert levels[..0] == [] && levels[0..] == levels;
    MatchEmpty(user, want);
    TotalNothing();
  }

  /** A sweep that gets all it wants at the first level. */
  lemma WantMet(levels: seq<Level>, side: Side, limit: Price, user: UserId, want: Quantity, level: Level,
                fills: seq<Fill>)
    requires levels != [] && Reaches(side, levels[0].price, limit)
    requires MatchNodes(levels[0].price, levels[0].nodes, user, want) == LevelMatched(level.nodes, fills)
    requires level.price == levels[0].price && want - Total(fills) == 0.0
    ensures SweptAs(levels, side, limit, user, want, Sweep([level] + levels[1..], fills, false, 1))
  {
    hide Match, MatchNodes, Flatten, Total, Tag, Reaches;
    assert levels[..1] == [levels[0]] + [];
    MatchFirstLevel(levels[0], [], user, want, 0.0);
    FlattenNil();
    MatchEmpty(user, 0.0);
    JoinNothing(Matched(Tag(level.price, level.nodes), fills));
    FlattenCons(level, levels[1..]);
  }

  lemma FlattenNil()
    ensures Flatten([]) == []
  {
  }

  /** The inductive step of SweepIsMatch: a level passed through in front of a sweep of the others. */
  lemma SweepStep(levels: seq<Level>, side: Side, limit: Price, user: UserId, want: Quantity, left: Quantity,
                  level: Level, fills: seq<Fill>, tail: Sweep)
    requires levels != [] && Reaches(side, levels[0].price, limit)
    requires MatchNodes(levels[0].price, levels[0].nodes, user, want) == LevelMatched(level.nodes, fills)
    requires level.price == levels[0].price && left == want - Total(fills)
    requires SweptAs(levels[1..], side, limit, user, left, tail)
    ensures SweptAs(levels, side, limit, user, want,
                    Sweep([level] + tail.levels, fills + tail.fills, tail.blocked, tail.entered + 1))
  {
    hide Match, MatchNodes, Flatten, Total, Tag, Reaches;
    var n := tail.entered;
    assert levels[..n + 1] == [levels[0]] + levels[1..][..n];
    assert levels[n + 1..] == levels[1..][n..];
    SeqCons(level, tail.levels);
    FlattenCons(level, tail.levels);
    MatchFirstLevel(levels[0], levels[1..][..n], user, want, left);
    TotalAppend(fills, tail.fills);
    SeqAssoc(Tag(level.price, level.nodes), Match(Flatten(levels[1..][..n]), user, left).kept, Flatten(levels[n + 1..]));
  }
}

/** The tick direction of a book: the rule that updates it and what it means in terms of the trade history. */
module Tick {
  import opened Core

  datatype Direction = PlusTick | ZeroPlusTick | MinusTick | ZeroMinusTick

  datatype TickState = TickState(last: Price, previous: Price, direction: Direction)

  const INITIAL := TickState(0.0, 0.0, ZeroPlusTick)

  /** Recomputes the direction from the two remembered prices. */
  function Recompute(t: TickState): TickState {
    t.(direction :=
      if t.last > t.previous then PlusTick
      else if t.last < t.previous then MinusTick
      else if t.direction.PlusTick? || t.direction.ZeroPlusTick? then ZeroPlusTick
      else ZeroMinusTick)
  }

  /** One trade at the given price. */
  function Trade(t: TickState, price: Price): TickState {
    Recompute(TickState(price, t.last, t.direction))
  }

  /** Whether the tick rule lets an order of this side trade. */
  predicate Allows(t: TickState, side: Side) {
    match side
    case BuyMinus => t.direction.PlusTick? || t.direction.ZeroPlusTick?
    case SellPlus => t.direction.MinusTick? || t.direction.ZeroMinusTick?
    case _ => true
  }

  /** Recomputing again changes nothing: true initially and after every trade. */
  predicate Settled(t: TickState) { Recompute(t) == t }

  function TradeAll(t: TickState, prices: seq<Price>): TickState
    decreases |prices|
  {
    if prices == [] then t else TradeAll(Trade(t, prices[0]), prices[1..])
  }

  lemma {:induction false} TradeAllAppend(t: TickState, a: seq<Price>, b: seq<Price>)
    ensures TradeAll(t, a + b) == TradeAll(TradeAll(t, a), b)
    decreases |a|
  {
    if a == [] {
      assert a + b == b;
    } else {
      assert (a + b)[1..] == a[1..] + b;
      TradeAllAppend(Trade(t, a[0]), a[1..], b);
    }
  }

  lemma {:induction false} TradeAllSettled(t: TickState, prices: seq<Price>)
    requires Settled(t)
    ensures Settled(TradeAll(t, prices))
    decreases |prices|
  {
    if prices != [] { TradeAllSettled(Trade(t, prices[0]), prices[1..]); }
  }

  // ---- What the direction means ----

  /** The prices seen so far, starting from the zero the book is created with. */
  function Seen(prices: seq<Price>): (s: seq<Price>) { [0.0] + prices }

  /** Position i is the last strict price change of s. */
  ghost predicate LastChange(s: seq<Price>, i: int) {
    && 0 < i < |s|
    && s[i] != s[i - 1]
    && forall j :: i < j < |s| ==> s[j] == s[i]
  }

  /** The direction a history stands for, told without any running state. */
  ghost predicate Means(d: Direction, s: seq<Price>)
    requires |s| > 0
  {
    var n := |s|;
    match d
    case PlusTick => n > 1 && s[n - 1] > s[n - 2]
    case MinusTick => n > 1 && s[n - 1] < s[n - 2]
    case ZeroPlusTick =>
      && (n > 1 ==> s[n - 1] == s[n - 2])
      && forall i :: LastChange(s, i) ==> s[i] > s[i - 1]
    case ZeroMinusTick =>
      && n > 1 && s[n - 1] == s[n - 2]
      && exists i :: LastChange(s, i) && s[i] < s[i - 1]
  }

  /** A history that ends with two equal prices has the last change of the history before it. */
  lemma FlatEnd(s: seq<Price>, i: int)
    requires |s| > 1 && s[|s| - 1] == s[|s| - 2]
    ensures LastChange(s, i) <==> LastChange(s[..|s| - 1], i)
  {
    var n := |s|;
    var t := s[..n - 1];
    if LastChange(t, i) {
      assert t[n - 2] == t[i];
    }
    if LastChange(s, i) {
      assert forall j :: i < j < n - 1 ==> t[j] == s[j];
    }
  }

  /** The tick state after any trade history is the direction of the last strict price change. */
  lemma {:induction false} TickMeansLastChange(prices: seq<Price>)
    ensures var t := TradeAll(INITIAL, prices);
            && t.last == Seen(prices)[|prices|]
            && t.previous == (if prices == [] then 0.0 else Seen(prices)[|prices| - 1])
            && Settled(t)
            && Means(t.direction, Seen(prices))
    decreases |prices|
  {
    TradeNone(INITIAL);
    hide TradeAll;
    if prices != [] {
      hide LastChange;
      var n := |prices|;
      var before := prices[..n - 1];
      assert prices == before + [prices[n - 1]];
      TickMeansLastChange(before);
      TradeAllAppend(INITIAL, before, [prices[n - 1]]);
      var t0 := TradeAll(INITIAL, before);
      TradeLast(t0, prices[n - 1]);
      var s := Seen(prices);
      assert s[..n] == Seen(before);
      if s[n] == s[n - 1] {
        MeansZero(s, t0.direction);
      }
    }
  }

  lemma TradeNone(t: TickState)
    ensures TradeAll(t, []) == t
  {
  }

  lemma TradeLast(t: TickState, p: Price)
    ensures TradeAll(t, [p]) == Trade(t, p)
  {
    assert [p][1..] == [];
  }

  /** Repeating the last price turns a direction into its zero variant. */
  lemma MeansZero(s: seq<Price>, d: Direction)
    requires |s| > 1 && s[|s| - 1] == s[|s| - 2]
    requires Means(d, s[..|s| - 1])
    ensures Means(if d.PlusTick? || d.ZeroPlusTick? then ZeroPlusTick else ZeroMinusTick, s)
  {
    var n := |s|;
    var t := s[..n - 1];
    forall i ensures LastChange(s, i) <==> LastChange(t, i) { FlatEnd(s, i); }
    match d
    case PlusTick =>
      assert LastChange(t, n - 2);
    case MinusTick =>
      assert LastChange(t, n - 2);
      assert LastChange(s, n - 2);
    case ZeroPlusTick =>
    case ZeroMinusTick =>
      var i :| LastChange(t, i) && t[i] < t[i - 1];
      assert LastChange(s, i);
  }

  /** Recomputing in between, as every permission check does, is not observable. */
  lemma RecomputeUnobservable(prices: seq<Price>, more: seq<Price>)
    ensures TradeAll(Recompute(TradeAll(INITIAL, prices)), more) == TradeAll(INITIAL, prices + more)
  {
    TickMeansLastChange(prices);
    TradeAllAppend(INITIAL, prices, more);
  }
}

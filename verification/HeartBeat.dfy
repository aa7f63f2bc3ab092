/** The server's heartbeat watch over one client: a late client gets one TestRequest, and is dropped if that is not
    answered in time either. Every handler is one step. Times are clock ticks. */
module HeartBeat {
  import opened Core

  const SECOND: nat := 1_000_000_000

  /** testValue is the id of the outstanding TestRequest: the second in which it was sent. */
  datatype Beat = Beat(
    loggedIn: bool, leaving: bool, since: int, elapsing: nat, testRequest: bool, testValue: Option<int>, dropped: bool)

  /** A client when it connects. */
  function Connected(now: int): Beat { Beat(false, false, now, 1, false, None, false) }

  /** The interval agreed at Logon: the most whole seconds within what the client asks for and what is configured, but
      at least one. */
  function Clamp(asked: real, most: real): (e: nat)
    ensures e >= 1
    ensures asked >= 1.0 && most >= 1.0 ==> e as real <= asked && e as real <= most
    ensures e > 1 ==> asked >= 1.0 && most >= 1.0
    ensures (e + 1) as real > asked || (e + 1) as real > most
  {
    var x := if most < asked then most else asked;
    (if x < 1.0 then 1.0 else x).Floor
  }

  datatype Event =
    | Logon(now: int, asked: real, most: real)
    | HeartBeat(received: int, id: Option<int>)
    | Poll(now: int)
    | Leave            // the client is to be disconnected after the next message

  function Period(b: Beat): int { b.elapsing * SECOND }

  /** Whether a heartbeat is the answer that is waited for, or none is. */
  predicate Accepted(b: Beat, id: Option<int>) {
    b.testRequest ==> b.testValue.Some? && id == b.testValue
  }

  predicate Late(b: Beat, now: int) { !b.leaving && b.loggedIn && now - b.since > Period(b) }

  function Step(b: Beat, e: Event): Beat {
    match e
    case Logon(now, asked, most) =>
      if b.loggedIn then b else b.(loggedIn := true, since := now, elapsing := Clamp(asked, most))
    case HeartBeat(received, id) =>
      if Accepted(b, id) then
        b.(testRequest := false, testValue := if b.testRequest then None else b.testValue, since := received)
      else b
    case Poll(now) =>
      if !Late(b, now) then b
      else if !b.testRequest then b.(since := now, testRequest := true, testValue := Some(now / SECOND))
      else b.(dropped := true)
    case Leave => b.(leaving := true)
  }

  /** A watch with its history: when the last HeartBeat accepted was received, or the Logon processed; and when the last
      TestRequest was sent. */
  datatype Watch = Watch(beat: Beat, heard: int, tested: int)

  function Do(w: Watch, e: Event): Watch {
    var t := w.(beat := Step(w.beat, e));
    match e
    case Logon(now, _, _) => if w.beat.loggedIn then t else t.(heard := now)
    case HeartBeat(received, id) => if Accepted(w.beat, id) then t.(heard := received) else t
    case Poll(now) => if Late(w.beat, now) && !w.beat.testRequest then t.(tested := now) else t
    case Leave => t
  }

  function Start(now: int): Watch { Watch(Connected(now), now, now) }

  /** A run; a client that is dropped is gone from the store. */
  function Run(w: Watch, es: seq<Event>): Watch
    decreases |es|
  {
    if es == [] || w.beat.dropped then w else Run(Do(w, es[0]), es[1..])
  }

  predicate Inv(w: Watch) {
    var b := w.beat;
    && (b.testRequest <==> b.testValue.Some?)
    && b.elapsing >= 1
    && (b.testRequest ==> b.loggedIn && b.since == w.tested && w.tested - w.heard > Period(b))
    && (!b.testRequest ==> b.since == w.heard)
  }

  lemma {:induction false} RunInv(w: Watch, es: seq<Event>)
    requires Inv(w)
    ensures Inv(Run(w, es))
    decreases |es|
  {
    if es != [] && !w.beat.dropped { RunInv(Do(w, es[0]), es[1..]); }
  }

  /** In every run, however the clock behaves: a TestRequest is outstanding exactly while its value is kept, the interval
      is at least a second, and a client is dropped only more than two intervals after its last accepted HeartBeat was
      received, or its Logon processed, and more than one after the TestRequest that it has still not answered. */
  lemma DropsOnlyTheSilent(start: int, es: seq<Event>, now: int)
    requires !Run(Start(start), es).beat.dropped
    ensures var w := Run(Start(start), es);
      && (w.beat.testRequest <==> w.beat.testValue.Some?)
      && Period(w.beat) >= SECOND
      && (Do(w, Poll(now)).beat.dropped ==>
            w.beat.testRequest && now - w.heard > 2 * Period(w.beat) && now - w.tested > Period(w.beat))
  {
    RunInv(Start(start), es);
  }

  // ---- A TestRequest and its answer ----

  predicate Outstanding(w: Watch, value: int) { w.beat.testRequest && w.beat.testValue == Some(value) }

  /** Only a HeartBeat that carries the value answers a TestRequest: without one the value stays outstanding and the
      client counts as heard no later than before. */
  lemma {:induction false} UnansweredStays(w: Watch, es: seq<Event>, value: int)
    requires Inv(w) && Outstanding(w, value)
    requires forall i :: 0 <= i < |es| && es[i].HeartBeat? ==> es[i].id != Some(value)
    ensures var t := Run(w, es); Outstanding(t, value) && t.heard == w.heard && t.tested == w.tested
    decreases |es|
  {
    if es != [] && !w.beat.dropped {
      var t := Do(w, es[0]);
      assert Outstanding(t, value) && t.heard == w.heard && t.tested == w.tested;
      UnansweredStays(t, es[1..], value);
    }
  }

  /** And that one does. */
  lemma AnswerAnswers(w: Watch, value: int, received: int)
    requires Inv(w) && Outstanding(w, value)
    ensures var t := Do(w, HeartBeat(received, Some(value)));
      !t.beat.testRequest && t.beat.since == received && t.heard == received && t.beat.dropped == w.beat.dropped
  {
  }

  // ---- A client that does not answer ----

  /** The poll of a run that drops the client. */
  function DropTime(w: Watch, es: seq<Event>): Option<int>
    decreases |es|
  {
    if es == [] then None
    else
      var t := Do(w, es[0]);
      if es[0].Poll? && t.beat.dropped then Some(es[0].now) else DropTime(t, es[1..])
  }

  /** The polls come one after the other, never more than a gap apart. */
  predicate Steady(from: int, es: seq<Event>, gap: int)
    decreases |es|
  {
    es == [] ||
    (if es[0].Poll? then from <= es[0].now <= from + gap && Steady(es[0].now, es[1..], gap)
     else Steady(from, es[1..], gap))
  }

  function LastPoll(from: int, es: seq<Event>): int
    decreases |es|
  {
    if es == [] then from else LastPoll(if es[0].Poll? then es[0].now else from, es[1..])
  }

  /** Nothing comes from the client but Logons, and HeartBeats that do not carry the value that is waited for. */
  predicate Silent(w: Watch, es: seq<Event>)
    decreases |es|
  {
    es == [] ||
    (&& !es[0].Leave?
     && (es[0].HeartBeat? ==> w.beat.testRequest && es[0].id != w.beat.testValue)
     && Silent(Do(w, es[0]), es[1..]))
  }

  lemma {:induction false} TestedIsDropped(w: Watch, es: seq<Event>, from: int, gap: int)
    requires Inv(w) && !w.beat.dropped && !w.beat.leaving && w.beat.testRequest
    requires Silent(w, es) && Steady(from, es, gap) && from <= w.tested + Period(w.beat)
    requires LastPoll(from, es) > w.tested + Period(w.beat)
    ensures var d := DropTime(w, es);
      d.Some? && w.tested + Period(w.beat) < d.value <= w.tested + Period(w.beat) + gap
    decreases |es|
  {
    var t := Do(w, es[0]);
    if !t.beat.dropped {
      assert t == w;
      TestedIsDropped(w, es[1..], if es[0].Poll? then es[0].now else from, gap);
    }
  }

  /** And the silent are dropped: a logged-in client that sends no HeartBeat until it gets its TestRequest, and then none
      with the value asked for, is dropped later than two intervals after it was last heard, and at most two gaps
      between polls later than that. */
  lemma {:induction false} SilentIsDropped(w: Watch, es: seq<Event>, from: int, gap: int)
    requires Inv(w) && !w.beat.dropped && w.beat.loggedIn && !w.beat.leaving && !w.beat.testRequest
    requires gap >= 0 && Silent(w, es) && Steady(from, es, gap) && from <= w.heard + Period(w.beat)
    requires LastPoll(from, es) > w.heard + 2 * Period(w.beat) + gap
    ensures var d := DropTime(w, es);
      d.Some? && w.heard + 2 * Period(w.beat) < d.value <= w.heard + 2 * Period(w.beat) + 2 * gap
    decreases |es|
  {
    var t := Do(w, es[0]);
    if t.beat.testRequest {
      TestedIsDropped(t, es[1..], es[0].now, gap);
    } else {
      assert t == w;
      SilentIsDropped(w, es[1..], if es[0].Poll? then es[0].now else from, gap);
    }
  }

  /** A client that is to be disconnected, or never logged in, is left alone: no poll changes anything about it. */
  lemma {:induction false} LeavingIsLeftAlone(w: Watch, es: seq<Event>)
    requires w.beat.leaving || !w.beat.loggedIn
    requires forall i :: 0 <= i < |es| ==> es[i].Poll?
    ensures Run(w, es) == w
    decreases |es|
  {
    if es != [] && !w.beat.dropped {
      assert es[0].Poll? && Do(w, es[0]) == w;
      LeavingIsLeftAlone(w, es[1..]);
    }
  }

  // ---- The objects ----

  datatype Reply = Echo | MissingId | WrongId | NoValue

  class HeartBeatInfo {
    var loggedIn: bool
    var leaving: bool
    var since: int
    var elapsing: nat
    var testRequest: bool
    var testValue: Option<int>
    var dropped: bool

    function View(): Beat
      reads this
    {
      Beat(loggedIn, leaving, since, elapsing, testRequest, testValue, dropped)
    }

    constructor (now: int)
      ensures View() == Connected(now)
    {
      loggedIn, leaving, since, elapsing, testRequest, testValue, dropped := false, false, now, 1, false, None, false;
    }

    /** The heartbeat part of a Logon; a client that is logged in is refused. */
    method OnLogon(now: int, asked: real, most: real) returns (accepted: bool)
      modifies this
      ensures View() == Step(old(View()), Logon(now, asked, most)) && accepted == !old(loggedIn)
      ensures accepted ==> loggedIn && since == now && elapsing == Clamp(asked, most)
      ensures !accepted ==> View() == old(View())
    {
      accepted := !loggedIn;
      if accepted {
        loggedIn := true;
        since := now;
        elapsing := Clamp(asked, most);
      }
    }

    /** processHeartBeat: a wrong or missing id while a TestRequest is outstanding changes nothing. */
    method ProcessHeartBeat(received: int, id: Option<int>) returns (r: Reply)
      modifies this
      ensures View() == Step(old(View()), HeartBeat(received, id))
      ensures r == Echo <==> !old(testRequest) || (old(testValue).Some? && id == old(testValue))
      ensures r == WrongId <==> old(testRequest && testValue.Some?) && id.Some? && id != old(testValue)
      ensures r == NoValue <==> old(testRequest && testValue.None?)
      ensures r == MissingId <==> old(testRequest && testValue.Some?) && id.None?
      ensures r == Echo ==>
                View() == old(View()).(since := received, testRequest := false,
                                       testValue := if old(testRequest) then None else old(testValue))
      ensures r != Echo ==> View() == old(View())
    {
      if testRequest {
        if testValue.None? { return NoValue; }
        if id.None? { return MissingId; }
        if testValue.value != id.value { return WrongId; }
        testRequest := false;
        testValue := None;
      }
      since := received;
      r := Echo;
    }

    /** One client in one turn of handle; a TestRequest is sent, or the client is removed, or nothing. */
    method Watch(now: int) returns (send: Option<int>)
      modifies this
      ensures View() == Step(old(View()), Poll(now))
      ensures send.Some? <==>
                old(loggedIn && !leaving && !testRequest) && now - old(since) > old(elapsing) * 1_000_000_000
      ensures send.Some? ==>
                send == Some(now / 1_000_000_000) && View() == old(View()).(since := now, testRequest := true, testValue := send)
      ensures dropped <==>
                (old(dropped) ||
                 (old(loggedIn && !leaving && testRequest) && now - old(since) > old(elapsing) * 1_000_000_000))
      ensures send.None? ==> View() == old(View()).(dropped := dropped)
    {
      send := None;
      if leaving || !loggedIn { return; }
      if now - since > elapsing * SECOND {
        if !testRequest {
          since := now;
          testRequest := true;
          testValue := Some(now / SECOND);
          send := testValue;
        } else {
          dropped := true;
        }
      }
    }
  }
}

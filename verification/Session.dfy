/** The sequence numbers of a FIX session between one client and the server. Each side has one counter for both
    directions: it moves on every message sent and on every message read. The server's counter and the MsgSeqNum tag
    have 32 bits, the client's counter 64. Reading with its check, and stamping with sending, are one step each; the
    channels deliver in order, one message per read. */
module Session {
  import opened Core
  import opened Modulo

  datatype Peer = Peer(loggedIn: bool, counter: nat)

  function Next(p: Peer, width: nat): Peer
    requires width > 0
  {
    p.(counter := (p.counter + 1) % width)
  }

  /** A peer that is not logged in moves its counter before it stamps, too. */
  function Ready(p: Peer, width: nat): Peer
    requires width > 0
  {
    if p.loggedIn then p else Next(p, width)
  }

  function Stamp(p: Peer, width: nat): nat
    requires width > 0
  {
    Ready(p, width).counter % W32
  }

  function Sent(p: Peer, width: nat): Peer
    requires width > 0
  {
    Next(Ready(p, width), width)
  }

  function Reading(p: Peer, width: nat): Peer
    requires width > 0
  {
    if p.loggedIn then Next(p, width) else p
  }

  /** The header check, made after the counter has moved. */
  predicate Passes(p: Peer, width: nat, num: nat)
    requires width > 0
  {
    p.loggedIn ==> num == (p.counter - 1) % width
  }

  function LoggedOn(num: nat): Peer { Peer(true, (num + 1) % W32) }

  /** logon and valid say whether this is a Logon and one the handler accepts. inSession: its sender was logged in.
      seen: how many messages its sender had read when it sent this one. */
  datatype Msg = Msg(logon: bool, valid: bool, num: nat, inSession: bool, seen: nat)

  /** The counts are of all messages sent and read so far. unheard, set when the client reads the answer to its Logon,
      is how many messages it has sent by then that the server had not read when it stamped that answer. */
  datatype State = State(
    client: Peer, server: Peer, toServer: seq<Msg>, toClient: seq<Msg>, answerDue: bool,
    clientSent: nat, clientRead: nat, serverSent: nat, serverRead: nat, unheard: int)

  const START := State(Peer(false, 1), Peer(false, 0), [], [], false, 0, 0, 0, 0, 0)

  datatype Action = ClientSends(logon: bool, valid: bool) | ServerSends | ServerAnswers | ClientReads | ServerReads

  predicate Enabled(s: State, a: Action) {
    match a
    case ClientSends(_, _) => true
    case ServerSends => true
    case ServerAnswers => s.answerDue
    case ClientReads => s.toClient != []
    case ServerReads => s.toServer != []
  }

  function ServerSend(s: State, logon: bool): State {
    s.(server := Sent(s.server, W32), serverSent := s.serverSent + 1,
       toClient := s.toClient + [Msg(logon, true, Stamp(s.server, W32), s.server.loggedIn, s.serverRead)])
  }

  function Do(s: State, a: Action): State
    requires Enabled(s, a)
  {
    match a
    case ClientSends(logon, valid) =>
      s.(client := Sent(s.client, W64), clientSent := s.clientSent + 1,
         toServer := s.toServer + [Msg(logon, valid, Stamp(s.client, W64), s.client.loggedIn, s.clientRead)])
    case ServerSends => ServerSend(s, false)
    case ServerAnswers => ServerSend(s, true).(answerDue := false)
    case ServerReads =>
      var m := s.toServer[0];
      var p := Reading(s.server, W32);
      var t := s.(server := p, serverRead := s.serverRead + 1, toServer := s.toServer[1..]);
      if m.logon && m.valid && !p.loggedIn && Passes(p, W32, m.num) then t.(server := LoggedOn(m.num), answerDue := true)
      else t
    case ClientReads =>
      var m := s.toClient[0];
      var p := Reading(s.client, W64);
      var t := s.(client := p, clientRead := s.clientRead + 1, toClient := s.toClient[1..]);
      if m.logon && Passes(p, W64, m.num) then
        t.(client := LoggedOn(m.num), unheard := s.clientSent - m.seen)
      else t
  }

  /** Whether the next message to be read passes its reader's check. */
  predicate NextPassesAtServer(s: State)
    requires s.toServer != []
  {
    Passes(Reading(s.server, W32), W32, s.toServer[0].num)
  }

  predicate NextPassesAtClient(s: State)
    requires s.toClient != []
  {
    Passes(Reading(s.client, W64), W64, s.toClient[0].num)
  }

  ghost predicate Reaches(s: State, actions: seq<Action>, t: State)
    decreases |actions|
  {
    if actions == [] then s == t
    else Enabled(s, actions[0]) && Reaches(Do(s, actions[0]), actions[1..], t)
  }

  // ---- The invariant ----

  predicate NoLogon(q: seq<Msg>) { forall i :: 0 <= i < |q| ==> !q[i].logon }

  predicate InSession(q: seq<Msg>) { forall i :: 0 <= i < |q| ==> q[i].inSession }

  /** The one answer to a Logon on its way to the client, and what the server sent after it. */
  predicate AnswerAt(q: seq<Msg>, k: int) {
    0 <= k < |q| && q[k].logon && NoLogon(q[..k]) && NoLogon(q[k + 1..]) && InSession(q[k..])
  }

  ghost predicate OneLogon(q: seq<Msg>) { exists k :: AnswerAt(q, k) }

  predicate Counts(s: State) {
    && s.clientSent == s.serverRead + |s.toServer|
    && s.serverSent == s.clientRead + |s.toClient|
    && (forall i :: 0 <= i < |s.toServer| ==> s.toServer[i].seen <= s.clientRead)
    && (forall i :: 0 <= i < |s.toClient| ==> s.toClient[i].seen <= s.serverRead)
  }

  /** Where the exchange of Logons is. */
  ghost predicate Phase(s: State) {
    if !s.server.loggedIn then !s.client.loggedIn && !s.answerDue && NoLogon(s.toClient)
      && forall i :: 0 <= i < |s.toClient| ==> !s.toClient[i].inSession
    else if s.answerDue then !s.client.loggedIn && NoLogon(s.toClient)
    else if !s.client.loggedIn then OneLogon(s.toClient)
    else NoLogon(s.toClient) && InSession(s.toClient) && (s.unheard == 0 ==> InSession(s.toServer))
  }

  /** A server that is logged in has read something, and says so in what it sends. */
  predicate Heard(s: State) {
    s.server.loggedIn ==>
      s.serverRead > 0 && forall i :: 0 <= i < |s.toClient| && s.toClient[i].inSession ==> s.toClient[i].seen > 0
  }

  /** base is what the server's counter would have started from had it counted from the beginning. */
  predicate ServerCounts(s: State, base: int) {
    s.server.loggedIn ==>
      && s.server.counter == (base + s.serverSent + s.serverRead) % W32
      && forall i :: 0 <= i < |s.toClient| && s.toClient[i].inSession ==>
           s.toClient[i].num == (base + s.clientRead + i + s.toClient[i].seen) % W32
  }

  predicate ClientCounts(s: State, base: int) {
    if s.client.loggedIn then
      && s.client.counter == (base - s.unheard + s.clientSent + s.clientRead) % W64
      && s.unheard >= 0
      && forall i :: 0 <= i < |s.toServer| && s.toServer[i].inSession ==>
           s.toServer[i].num == (base - s.unheard + s.serverRead + i + s.toServer[i].seen) % W32
    else forall i :: 0 <= i < |s.toServer| ==> !s.toServer[i].inSession
  }

  ghost predicate InvAt(s: State, base: int) {
    Counts(s) && Phase(s) && Heard(s) && ServerCounts(s, base) && ClientCounts(s, base)
  }

  lemma StartInv()
    ensures InvAt(START, 0)
  {
  }

  // ---- Every step keeps the invariant ----

  lemma StepCounts(s: State, a: Action)
    requires Counts(s) && Enabled(s, a)
    ensures Counts(Do(s, a))
  {
    hide Passes, Stamp, Sent, Reading;
    if a.ClientReads? { Shifted(s.toClient); }
    if a.ServerReads? { Shifted(s.toServer); }
  }

  /** What becomes of a queue when its first message is read. */
  lemma Shifted(q: seq<Msg>)
    requires q != []
    ensures forall i :: 0 <= i < |q| - 1 ==> q[1..][i] == q[i + 1]
  {
  }

  lemma OneLogonLonger(q: seq<Msg>, m: Msg)
    requires !m.logon && m.inSession && OneLogon(q)
    ensures OneLogon(q + [m])
  {
    var k :| AnswerAt(q, k);
    assert (q + [m])[..k] == q[..k] && (q + [m])[k + 1..] == q[k + 1..] + [m] && (q + [m])[k..] == q[k..] + [m];
    assert AnswerAt(q + [m], k);
  }

  lemma OneLogonLast(q: seq<Msg>, m: Msg)
    requires m.logon && m.inSession && NoLogon(q)
    ensures OneLogon(q + [m])
  {
    var r := q + [m];
    assert r[..|q|] == q && r[|q| + 1..] == [] && r[|q|..] == [m];
    assert AnswerAt(r, |q|);
  }

  lemma OneLogonTail(q: seq<Msg>)
    requires OneLogon(q)
    ensures q != []
    ensures if q[0].logon then InSession(q) && NoLogon(q[1..]) else OneLogon(q[1..])
  {
    var k :| AnswerAt(q, k);
    if k > 0 {
      assert q[..k][0] == q[0];
      assert q[1..][..k - 1] == q[..k][1..] && q[1..][k..] == q[k + 1..] && q[1..][k - 1..] == q[k..];
      assert AnswerAt(q[1..], k - 1);
    } else {
      assert q[0..] == q;
    }
  }

  lemma StepPhase(s: State, a: Action)
    requires Phase(s) && Counts(s) && Enabled(s, a)
    ensures Phase(Do(s, a))
  {
    hide OneLogon, Stamp;
    if a.ServerSends? && s.server.loggedIn && !s.answerDue && !s.client.loggedIn {
      OneLogonLonger(s.toClient, Do(s, a).toClient[|s.toClient|]);
    } else if a.ServerAnswers? {
      OneLogonLast(s.toClient, Do(s, a).toClient[|s.toClient|]);
    } else if a.ClientReads? && OneLogon(s.toClient) {
      OneLogonTail(s.toClient);
    }
  }

  lemma StepHeard(s: State, a: Action)
    requires Phase(s) && Heard(s) && Enabled(s, a)
    ensures Heard(Do(s, a))
  {
    hide Stamp, OneLogon, NoLogon, InSession;
  }

  lemma SendNumbers(s: State, base: int, a: Action)
    requires Counts(s) && ServerCounts(s, base) && ClientCounts(s, base)
    requires Enabled(s, a) && (a.ServerSends? || a.ServerAnswers?)
    ensures ServerCounts(Do(s, a), base) && ClientCounts(Do(s, a), base)
  {
    Accumulate(base + s.serverSent + s.serverRead, 1);
  }

  lemma ClientStamp(p: Peer, x: int)
    requires p.loggedIn && p.counter == x % W64
    ensures Stamp(p, W64) == x % W32 && Sent(p, W64) == Peer(true, (x + 1) % W64)
    ensures Reading(p, W64) == Peer(true, (x + 1) % W64)
  {
    Narrow(x);
    Next64(x);
  }

  lemma ClientSendNumbers(s: State, base: int, logon: bool, valid: bool)
    requires Counts(s) && ServerCounts(s, base) && ClientCounts(s, base)
    ensures ServerCounts(Do(s, ClientSends(logon, valid)), base) && ClientCounts(Do(s, ClientSends(logon, valid)), base)
  {
    if s.client.loggedIn {
      hide Stamp, Sent;
      ClientStamp(s.client, base - s.unheard + s.clientSent + s.clientRead);
    }
  }

  /** A read by the server; a Logon it accepts fixes where its counter counts from. */
  lemma ServerReadNumbers(s: State, base: int) returns (newBase: int)
    requires Counts(s) && Phase(s) && ServerCounts(s, base) && ClientCounts(s, base) && s.toServer != []
    ensures ServerCounts(Do(s, ServerReads), newBase) && ClientCounts(Do(s, ServerReads), newBase)
  {
    hide OneLogon, NoLogon;
    var t := Do(s, ServerReads);
    var m := s.toServer[0];
    Shifted(s.toServer);
    if s.server.loggedIn {
      newBase := base;
      Accumulate(base + s.serverSent + s.serverRead, 1);
    } else {
      newBase := m.num + 1 - t.serverSent - t.serverRead;
    }
  }

  lemma SameMod(x: int, y: int, n: int)
    requires (y - x) % W32 == 0
    ensures (x + n) % W32 == (y + n) % W32
  {
  }

  /** Counting from a multiple of 2^32 further on makes no difference to a 32-bit counter. */
  lemma Rebase(s: State, base: int, newBase: int)
    requires ServerCounts(s, base) && (newBase - base) % W32 == 0
    ensures ServerCounts(s, newBase)
  {
    if s.server.loggedIn {
      SameMod(base, newBase, s.serverSent + s.serverRead);
      forall i | 0 <= i < |s.toClient| && s.toClient[i].inSession
        ensures s.toClient[i].num == (newBase + s.clientRead + i + s.toClient[i].seen) % W32
      {
        SameMod(base, newBase, s.clientRead + i + s.toClient[i].seen);
        assert base + s.clientRead + i + s.toClient[i].seen == base + (s.clientRead + i + s.toClient[i].seen);
      }
    }
  }

  lemma ReadServerCounts(s: State, base: int)
    requires ServerCounts(s, base) && s.toClient != []
    ensures ServerCounts(Do(s, ClientReads), base)
  {
    hide Passes, Reading, LoggedOn;
    Shifted(s.toClient);
    var t := Do(s, ClientReads);
    if s.server.loggedIn {
      forall i | 0 <= i < |t.toClient| && t.toClient[i].inSession
        ensures t.toClient[i].num == (base + t.clientRead + i + t.toClient[i].seen) % W32
      {
        assert s.toClient[i + 1] == t.toClient[i];
      }
    }
  }

  /** The answer to the Logon sets the client's counter, and the server's count is rebased so that the two agree but
      for what the server had not heard. */
  lemma AnswerNumbers(s: State, base: int) returns (newBase: int)
    requires Counts(s) && ServerCounts(s, base) && ClientCounts(s, base) && s.toClient != []
    requires !s.client.loggedIn && s.toClient[0].logon && s.toClient[0].inSession && s.server.loggedIn
    ensures ServerCounts(Do(s, ClientReads), newBase) && ClientCounts(Do(s, ClientReads), newBase)
  {
    var t := Do(s, ClientReads);
    var k := base + s.clientRead + s.toClient[0].seen;
    ReadServerCounts(s, base);
    HeadStamp(s, base);
    Accumulate(k, 1);
    Residue(k + 1);
    newBase := t.client.counter + t.unheard - t.clientSent - t.clientRead;
    hide ServerCounts;
    assert newBase - base == (k + 1) % W32 - (k + 1);
    Rebase(t, base, newBase);
  }

  lemma Residue(y: int)
    ensures (y % W32 - y) % W32 == 0 && 0 <= y % W32 < W32
    ensures (y % W32) % W64 == y % W32
  {
  }

  lemma HeadStamp(s: State, base: int)
    requires ServerCounts(s, base) && s.toClient != [] && s.toClient[0].inSession && s.server.loggedIn
    ensures s.toClient[0].num == (base + s.clientRead + s.toClient[0].seen) % W32
  {
  }

  lemma ClientReadNumbers(s: State, base: int) returns (newBase: int)
    requires Counts(s) && Phase(s) && ServerCounts(s, base) && ClientCounts(s, base) && s.toClient != []
    ensures ServerCounts(Do(s, ClientReads), newBase) && ClientCounts(Do(s, ClientReads), newBase)
  {
    hide ServerCounts, OneLogon;
    if !s.client.loggedIn && s.toClient[0].logon {
      if OneLogon(s.toClient) { OneLogonTail(s.toClient); }
      newBase := AnswerNumbers(s, base);
    } else {
      newBase := base;
      ReadServerCounts(s, base);
      Next64(base - s.unheard + s.clientSent + s.clientRead);
    }
  }

  /** Every step keeps the invariant, for some base. */
  lemma StepInv(s: State, base: int, a: Action) returns (newBase: int)
    requires InvAt(s, base) && Enabled(s, a)
    ensures InvAt(Do(s, a), newBase)
  {
    hide Phase, Counts, Heard, ServerCounts, ClientCounts, Do;
    StepCounts(s, a);
    StepPhase(s, a);
    StepHeard(s, a);
    match a {
      case ClientSends(logon, valid) =>
        newBase := base;
        ClientSendNumbers(s, base, logon, valid);
      case ClientReads => newBase := ClientReadNumbers(s, base);
      case ServerReads => newBase := ServerReadNumbers(s, base);
      case _ =>
        newBase := base;
        SendNumbers(s, base, a);
    }
  }

  lemma {:induction false} ReachInv(s: State, base: int, actions: seq<Action>, t: State) returns (newBase: int)
    requires InvAt(s, base) && Reaches(s, actions, t)
    ensures InvAt(t, newBase)
    decreases |actions|
  {
    hide InvAt, Do;
    if actions == [] {
      newBase := base;
    } else {
      var next := StepInv(s, base, actions[0]);
      newBase := ReachInv(Do(s, actions[0]), next, actions[1..], t);
    }
  }

  // ---- The theorems ----

  /** After the exchange of Logons the two counters, each with what is on its way to it, agree up to the client
      messages the server had not heard when it answered (numbers of 32 bits). */
  lemma CountersAgree(actions: seq<Action>, s: State)
    requires Reaches(START, actions, s) && s.client.loggedIn
    ensures s.unheard >= 0
    ensures (s.client.counter + |s.toClient|) % W32 == (s.server.counter + |s.toServer| - s.unheard) % W32
  {
    hide Reaches;
    StartInv();
    var base := ReachInv(START, 0, actions, s);
    var x := base - s.unheard + s.clientSent + s.clientRead;
    Narrow(x);
    ModPlus(s.client.counter, x, |s.toClient|, |s.toClient|);
    ModPlus(s.server.counter, base + s.serverSent + s.serverRead, |s.toServer| - s.unheard, |s.toServer| - s.unheard);
    assert s.server.counter % W32 == (base + s.serverSent + s.serverRead) % W32;
  }

  /** The server's check, exactly: a message of a logged-in client passes if and only if what the server has sent, and
      what it had not heard when it answered the Logon, is what the client had read when it sent the message, counted
      in 32 bits. */
  lemma ServerCheckExact(actions: seq<Action>, s: State)
    requires Reaches(START, actions, s) && s.client.loggedIn
    requires s.toServer != [] && s.toServer[0].inSession
    ensures var m := s.toServer[0];
      NextPassesAtServer(s) <==> (s.serverSent + s.unheard - m.seen) % W32 == 0
  {
    hide Reaches;
    StartInv();
    var base := ReachInv(START, 0, actions, s);
    var m := s.toServer[0];
    Before(s.server.counter);
    Difference(base + s.serverSent + s.serverRead, base - s.unheard + s.serverRead + m.seen);
  }

  /** The check looks at the counter as it was before the read. */
  lemma Before(c: nat)
    ensures c < W32 ==> ((c + 1) % W32 - 1) % W32 == c
    ensures c < W64 ==> ((c + 1) % W64 - 1) % W64 == c
  {
  }

  /** The client's check, exactly; its counter has 64 bits but the number in the message 32. */
  lemma ClientCheckExact(actions: seq<Action>, s: State)
    requires Reaches(START, actions, s) && s.client.loggedIn && s.toClient != []
    ensures var m := s.toClient[0];
      NextPassesAtClient(s) <==> s.client.counter < W32 && (s.clientSent - s.unheard - m.seen) % W32 == 0
  {
    hide Reaches;
    StartInv();
    var base := ReachInv(START, 0, actions, s);
    var m := s.toClient[0];
    var x := base - s.unheard + s.clientSent + s.clientRead;
    Before(s.client.counter);
    Narrow(x);
    Difference(x, base + s.clientRead + m.seen);
  }

  // ---- Before the login ----

  /** Until it is logged in a peer moves its counter twice for every message it sends, and not for what it reads: the
      numbers of the client are 2, 4, 6, ... and those of the server 1, 3, 5, ... */
  predicate Unlogged(s: State) {
    && (!s.client.loggedIn ==>
          && s.client.counter == (1 + 2 * s.clientSent) % W64
          && forall i :: 0 <= i < |s.toServer| ==> s.toServer[i].num == (2 * (s.serverRead + i) + 2) % W32)
    && (!s.server.loggedIn ==>
          && s.server.counter == (2 * s.serverSent) % W32
          && forall i :: 0 <= i < |s.toClient| ==> s.toClient[i].num == (2 * (s.clientRead + i) + 1) % W32)
  }

  lemma SentUnlogged(p: Peer, width: nat, c: nat)
    requires width == W32 || width == W64
    requires !p.loggedIn && p.counter == c % width
    ensures Stamp(p, width) == (c + 1) % W32 && Sent(p, width) == Peer(false, (c + 2) % width)
  {
    if width == W64 {
      Next64(c);
      Next64(c + 1);
      Narrow(c + 1);
    } else {
      Accumulate(c, 1);
      Accumulate(c + 1, 1);
    }
  }

  lemma SentKeepsLogin(p: Peer, width: nat)
    requires width > 0
    ensures Sent(p, width).loggedIn == p.loggedIn
  {
  }

  lemma StepUnlogged(s: State, a: Action)
    requires Unlogged(s) && Counts(s) && Phase(s) && Enabled(s, a)
    ensures Unlogged(Do(s, a))
  {
    Counted(s);
    if a.ClientReads? || a.ServerReads? { ReadUnlogged(s, a); } else { SendUnlogged(s, a); }
  }

  lemma SendUnlogged(s: State, a: Action)
    requires Unlogged(s) && Counts(s) && Enabled(s, a) && !a.ClientReads? && !a.ServerReads?
    ensures Unlogged(Do(s, a))
  {
    if a.ClientSends? { ClientSendUnlogged(s, a); } else { ServerSendUnlogged(s, a); }
  }

  lemma ClientSendUnlogged(s: State, a: Action)
    requires Unlogged(s) && Counts(s) && a.ClientSends?
    ensures Unlogged(Do(s, a))
  {
    SentKeepsLogin(s.client, W64);
    hide Stamp, Sent;
    if !s.client.loggedIn {
      var n := 1 + 2 * s.clientSent;
      SentUnlogged(s.client, W64, n);
      assert n + 2 == 1 + 2 * (s.clientSent + 1) && n + 1 == 2 * (s.serverRead + |s.toServer|) + 2;
    }
  }

  lemma ServerSendUnlogged(s: State, a: Action)
    requires Unlogged(s) && Counts(s) && Enabled(s, a) && (a.ServerSends? || a.ServerAnswers?)
    ensures Unlogged(Do(s, a))
  {
    SentKeepsLogin(s.server, W32);
    hide Stamp, Sent;
    if !s.server.loggedIn {
      var n := 2 * s.serverSent;
      SentUnlogged(s.server, W32, n);
      assert n + 2 == 2 * (s.serverSent + 1) && n + 1 == 2 * (s.clientRead + |s.toClient|) + 1;
    }
  }

  lemma ReadUnlogged(s: State, a: Action)
    requires Unlogged(s) && Phase(s) && Enabled(s, a) && (a.ClientReads? || a.ServerReads?)
    ensures Unlogged(Do(s, a))
  {
    hide OneLogon, InSession, Stamp, Sent, Passes, NoLogon;
    if a.ClientReads? { Shifted(s.toClient); } else { Shifted(s.toServer); }
  }

  lemma {:induction false} ReachUnlogged(s: State, base: int, actions: seq<Action>, t: State)
    requires InvAt(s, base) && Unlogged(s) && Reaches(s, actions, t)
    ensures Unlogged(t)
    decreases |actions|
  {
    hide Unlogged, Do, Phase, ServerCounts, ClientCounts, Counts, Heard;
    if actions != [] {
      var next := StepInv(s, base, actions[0]);
      StepUnlogged(s, actions[0]);
      ReachUnlogged(Do(s, actions[0]), next, actions[1..], t);
    }
  }

  /** The numbers before the login, and that neither side looks at them: every message passes a reader that is not
      logged in. */
  lemma BeforeLogin(actions: seq<Action>, s: State)
    requires Reaches(START, actions, s)
    ensures Unlogged(s)
    ensures !s.server.loggedIn && s.toServer != [] ==> NextPassesAtServer(s)
    ensures !s.client.loggedIn && s.toClient != [] ==> NextPassesAtClient(s)
    ensures s.client.loggedIn ==> NoLogon(s.toClient)
  {
    hide Reaches, Unlogged;
    StartInv();
    var base := ReachInv(START, 0, actions, s);
    StartUnlogged();
    ReachUnlogged(START, 0, actions, s);
  }

  lemma StartUnlogged()
    ensures Unlogged(START)
  {
  }

  /** The client's messages in a run. */
  function Sends(actions: seq<Action>): seq<Action> {
    if actions == [] then []
    else (if actions[0].ClientSends? then [actions[0]] else []) + Sends(actions[1..])
  }

  predicate Asks(a: Action) { a.ClientSends? && a.logon && a.valid }

  /** The state after the client has sent some messages: what is on its way, and who is logged in because of them. */
  ghost predicate Tracks(s: State, sent: seq<Action>) {
    && |sent| == s.serverRead + |s.toServer|
    && (forall i :: 0 <= i < |s.toServer| ==> (s.toServer[i].logon && s.toServer[i].valid <==> Asks(sent[s.serverRead + i])))
    && (s.server.loggedIn <==> exists i :: 0 <= i < s.serverRead && Asks(sent[i]))
  }

  lemma StepTracks(s: State, sent: seq<Action>, a: Action)
    requires Tracks(s, sent) && Enabled(s, a)
    ensures Tracks(Do(s, a), sent + Sends([a]))
  {
    hide Stamp, LoggedOn;
    assert [a][1..] == [] && sent + [] == sent;
    if a.ServerReads? {
      ReadTracks(s, sent);
    } else if a.ClientSends? {
      assert Sends([a]) == [a];
      assert forall i :: 0 <= i < |sent| ==> (sent + [a])[i] == sent[i];
      if s.server.loggedIn {
        var i :| 0 <= i < s.serverRead && Asks(sent[i]);
        assert Asks((sent + [a])[i]);
      }
    } else {
      assert Sends([a]) == [];
    }
  }

  lemma ReadTracks(s: State, sent: seq<Action>)
    requires Tracks(s, sent) && s.toServer != []
    ensures Tracks(Do(s, ServerReads), sent)
  {
    var t := Do(s, ServerReads);
    Shifted(s.toServer);
    assert t.server.loggedIn <==> (s.server.loggedIn || (s.toServer[0].logon && s.toServer[0].valid));
    if t.server.loggedIn {
      if s.server.loggedIn {
        var i :| 0 <= i < s.serverRead && Asks(sent[i]);
        assert i < t.serverRead && Asks(sent[i]);
      } else {
        assert Asks(sent[s.serverRead]);
      }
    }
  }

  lemma SendsCons(actions: seq<Action>)
    requires actions != []
    ensures Sends(actions) == Sends([actions[0]]) + Sends(actions[1..])
  {
    assert [actions[0]][1..] == [];
  }

  lemma {:induction false} ReachTracks(s: State, sent: seq<Action>, actions: seq<Action>, t: State)
    requires Tracks(s, sent) && Reaches(s, actions, t)
    ensures Tracks(t, sent + Sends(actions))
    decreases |actions|
  {
    hide Tracks, Do, Enabled;
    if actions == [] {
      assert sent + [] == sent;
    } else {
      StepTracks(s, sent, actions[0]);
      SendsCons(actions);
      assert sent + (Sends([actions[0]]) + Sends(actions[1..])) == sent + Sends([actions[0]]) + Sends(actions[1..]);
      ReachTracks(Do(s, actions[0]), sent + Sends([actions[0]]), actions[1..], t);
    }
  }

  /** In every run the server is logged in if and only if a valid Logon is among the messages of the client it has read,
      whatever their numbers. */
  lemma LoggedInIffAsked(actions: seq<Action>, s: State)
    requires Reaches(START, actions, s)
    ensures |Sends(actions)| == s.clientSent && s.serverRead <= s.clientSent
    ensures s.server.loggedIn <==> exists i :: 0 <= i < s.serverRead && Asks(Sends(actions)[i])
  {
    hide Reaches;
    StartInv();
    var base := ReachInv(START, 0, actions, s);
    assert Tracks(START, []);
    ReachTracks(START, [], actions, s);
    assert [] + Sends(actions) == Sends(actions);
    Counted(s);
  }

  // ---- A client that is silent until the answer ----

  predicate ValidLogon(m: Msg) { m.logon && m.valid }

  /** The server is not logged in, and nothing on its way to it can log it in. */
  predicate NotAsked(s: State) {
    !s.server.loggedIn && forall i :: 0 <= i < |s.toServer| ==> !ValidLogon(s.toServer[i])
  }

  predicate NoSends(actions: seq<Action>) { forall i :: 0 <= i < |actions| ==> !actions[i].ClientSends? }

  /** The client has sent n messages, a valid Logon last: only that one can log the server in, which has then read all
      n and says so in every answer. */
  predicate Asked(s: State, n: nat) {
    && s.clientSent == n
    && if s.server.loggedIn then
         s.toServer == [] && forall i :: 0 <= i < |s.toClient| && s.toClient[i].logon ==> s.toClient[i].seen == n
       else
         && s.toServer != [] && ValidLogon(s.toServer[|s.toServer| - 1])
         && forall i :: 0 <= i < |s.toServer| - 1 ==> !ValidLogon(s.toServer[i])
  }

  lemma LogonAsks(s: State)
    requires NotAsked(s)
    ensures Asked(Do(s, ClientSends(true, true)), s.clientSent + 1)
  {
    hide Stamp, Sent;
  }

  lemma StepAsked(s: State, n: nat, a: Action)
    requires Asked(s, n) && Counts(s) && Phase(s) && Enabled(s, a) && !a.ClientSends?
    ensures Asked(Do(s, a), n)
  {
    hide Stamp, Passes, LoggedOn, OneLogon, InSession;
    Counted(s);
    if a.ServerReads? {
      ServerReadAsked(s, n);
    } else if a.ClientReads? {
      var t := Do(s, a);
      Shifted(s.toClient);
      assert t.server == s.server && t.toServer == s.toServer && t.clientSent == s.clientSent;
    }
  }

  lemma ServerReadAsked(s: State, n: nat)
    requires Asked(s, n) && Counts(s) && Phase(s) && s.toServer != []
    ensures Asked(Do(s, ServerReads), n)
  {
    hide OneLogon, InSession;
    var t := Do(s, ServerReads);
    Shifted(s.toServer);
    assert t.toClient == s.toClient && NoLogon(s.toClient);
    if |s.toServer| > 1 {
      assert !ValidLogon(s.toServer[0]) && !t.server.loggedIn;
      assert t.toServer[|t.toServer| - 1] == s.toServer[|s.toServer| - 1];
    }
  }

  lemma Counted(s: State)
    requires Counts(s)
    ensures s.clientSent == s.serverRead + |s.toServer|
  {
  }

  lemma {:induction false} ReachAsked(s: State, n: nat, base: int, actions: seq<Action>, t: State)
    requires Asked(s, n) && InvAt(s, base) && NoSends(actions) && Reaches(s, actions, t)
    ensures Asked(t, n)
    decreases |actions|
  {
    hide Asked, Do, Phase, ServerCounts, ClientCounts, Counts, Heard;
    if actions != [] {
      var next := StepInv(s, base, actions[0]);
      StepAsked(s, n, actions[0]);
      ReachAsked(Do(s, actions[0]), n, next, actions[1..], t);
    }
  }

  /** The run of a client that is silent between its Logon and the answer: whatever was sent and read before, with the
      server not logged in and not asked yet; the Logon; and then anything but a message of the client, up to the
      answer. */
  ghost predicate SilentRun(before: seq<Action>, s: State, between: seq<Action>, u: State) {
    && Reaches(START, before, s) && NotAsked(s)
    && Reaches(Do(s, ClientSends(true, true)), between, u) && NoSends(between)
    && !u.client.loggedIn && u.toClient != [] && u.toClient[0].logon
  }

  /** Such a client leaves nothing unheard, however often it was refused before. */
  lemma SilentClient(before: seq<Action>, s: State, between: seq<Action>, u: State) returns (base: int)
    requires SilentRun(before, s, between, u)
    ensures InvAt(u, base)
    ensures Do(u, ClientReads).client.loggedIn && Do(u, ClientReads).unheard == 0
  {
    hide Reaches, Stamp, Sent, Reading;
    StartInv();
    var base0 := ReachInv(START, 0, before, s);
    var logon := ClientSends(true, true);
    var base1 := StepInv(s, base0, logon);
    LogonAsks(s);
    ReachAsked(Do(s, logon), s.clientSent + 1, base1, between, u);
    base := ReachInv(Do(s, logon), base1, between, u);
    AnswerHeard(u, s.clientSent + 1);
  }

  lemma AnswerHeard(u: State, n: nat)
    requires Asked(u, n) && Phase(u) && !u.client.loggedIn && u.toClient != [] && u.toClient[0].logon
    ensures Do(u, ClientReads).client.loggedIn && Do(u, ClientReads).unheard == 0
  {
    hide OneLogon, InSession;
  }

  /** With nothing unheard, short of 2^32 messages: everything on its way was sent in the session; a message passes its
      reader's check if and only if its sender had, when sending, read everything the reader has sent until it reads
      the message; and the counters with what is on its way agree. */
  lemma ChecksMeanAllRead(actions: seq<Action>, s: State)
    requires Reaches(START, actions, s) && s.client.loggedIn && s.unheard == 0
    requires s.client.counter < W32 && s.clientSent < W32 && s.serverSent < W32
    ensures InSession(s.toServer) && InSession(s.toClient)
    ensures s.toServer != [] ==> (NextPassesAtServer(s) <==> s.toServer[0].seen == s.serverSent)
    ensures s.toClient != [] ==> (NextPassesAtClient(s) <==> s.toClient[0].seen == s.clientSent)
    ensures (s.client.counter + |s.toClient|) % W32 == (s.server.counter + |s.toServer|) % W32
  {
    hide Reaches, NextPassesAtServer, NextPassesAtClient;
    StartInv();
    var base := ReachInv(START, 0, actions, s);
    CountersAgree(actions, s);
    if s.toServer != [] {
      ServerCheckExact(actions, s);
      Small(s.serverSent - s.toServer[0].seen);
    }
    if s.toClient != [] {
      ClientCheckExact(actions, s);
      Small(s.clientSent - s.toClient[0].seen);
    }
  }

  /** With something unheard, the server rejects every message the logged-in client ever sends, short of 2^32
      messages. */
  lemma UnheardIsFatal(actions: seq<Action>, s: State)
    requires Reaches(START, actions, s) && s.client.loggedIn && s.unheard > 0
    requires s.serverSent + s.clientSent < W32
    requires s.toServer != [] && s.toServer[0].inSession
    ensures !NextPassesAtServer(s)
  {
    hide Reaches, NextPassesAtServer;
    StartInv();
    var base := ReachInv(START, 0, actions, s);
    UnheardBound(actions, START, s);
    ServerCheckExact(actions, s);
    Small(s.serverSent + s.unheard - s.toServer[0].seen);
  }

  lemma {:induction false} UnheardBound(actions: seq<Action>, s: State, t: State)
    requires Reaches(s, actions, t) && s.unheard <= s.clientSent
    ensures t.unheard <= t.clientSent
    decreases |actions|
  {
    if actions != [] {
      UnheardBound(actions[1..], Do(s, actions[0]), t);
    }
  }

  /** What was unheard at the answer is so for the rest of the session: nothing sets the client's counter again. */
  lemma {:induction false} UnheardIsFixed(s: State, base: int, actions: seq<Action>, t: State)
    requires InvAt(s, base) && s.client.loggedIn && Reaches(s, actions, t)
    ensures t.client.loggedIn && t.unheard == s.unheard
    decreases |actions|
  {
    hide ServerCounts, ClientCounts, Counts, Heard;
    if actions != [] {
      var next := StepInv(s, base, actions[0]);
      UnheardIsFixed(Do(s, actions[0]), next, actions[1..], t);
    }
  }

  /** So a client that is silent until the answer is in step for the whole session. */
  lemma SilentSession(before: seq<Action>, s: State, between: seq<Action>, u: State, after: seq<Action>, t: State)
    requires SilentRun(before, s, between, u) && Reaches(Do(u, ClientReads), after, t)
    ensures t.client.loggedIn && t.unheard == 0
  {
    hide Reaches, Do, InvAt;
    var base := SilentClient(before, s, between, u);
    var next := StepInv(u, base, ClientReads);
    UnheardIsFixed(Do(u, ClientReads), next, after, t);
  }

  /** It does happen: one message sent between the Logon and the answer, and then a message of a client that has read
      everything is rejected. */
  lemma HastyClient() returns (actions: seq<Action>, s: State)
    ensures Reaches(START, actions, s) && s.client.loggedIn && s.unheard == 1
    ensures s.toServer != [] && s.toServer[0].inSession && s.toServer[0].seen == s.serverSent
    ensures !NextPassesAtServer(s)
  {
    hide Do, HastyState, Reaches, NextPassesAtServer;
    actions, s := [], START;
    HastyEnds();
    for i := 0 to |HASTY|
      invariant actions == HASTY[..i] && Reaches(START, actions, s)
      invariant s == HastyState(i)
    {
      HastyStep(i);
      Extend(START, actions, s, HASTY[i]);
      actions, s := actions + [HASTY[i]], Do(s, HASTY[i]);
    }
  }

  const HASTY: seq<Action> :=
    [ClientSends(true, true), ServerReads, ClientSends(false, true), ServerAnswers, ClientReads,
     ClientSends(false, true), ServerReads]

  /** The states of that run. */
  function HastyState(i: nat): State {
    var logon, hasty, late := Msg(true, true, 2, false, 0), Msg(false, true, 4, false, 0), Msg(false, true, 4, true, 1);
    var answer := Msg(true, true, 3, true, 1);
    if i == 0 then START
    else if i == 1 then State(Peer(false, 3), Peer(false, 0), [logon], [], false, 1, 0, 0, 0, 0)
    else if i == 2 then State(Peer(false, 3), Peer(true, 3), [], [], true, 1, 0, 0, 1, 0)
    else if i == 3 then State(Peer(false, 5), Peer(true, 3), [hasty], [], true, 2, 0, 0, 1, 0)
    else if i == 4 then State(Peer(false, 5), Peer(true, 4), [hasty], [answer], false, 2, 0, 1, 1, 0)
    else if i == 5 then State(Peer(true, 4), Peer(true, 4), [hasty], [], false, 2, 1, 1, 1, 1)
    else if i == 6 then State(Peer(true, 5), Peer(true, 4), [hasty, late], [], false, 3, 1, 1, 1, 1)
    else State(Peer(true, 5), Peer(true, 5), [late], [], false, 3, 1, 1, 2, 1)
  }

  lemma HastyStep(i: nat)
    requires i < |HASTY|
    ensures Enabled(HastyState(i), HASTY[i]) && Do(HastyState(i), HASTY[i]) == HastyState(i + 1)
  {
    if i < 3 { HastyLogon(i); } else { HastyRest(i); }
  }

  lemma HastyLogon(i: nat)
    requires i < 3
    ensures Enabled(HastyState(i), HASTY[i]) && Do(HastyState(i), HASTY[i]) == HastyState(i + 1)
  {
    HastyCounts();
    hide Stamp, Sent, Reading, LoggedOn;
    var t := Do(HastyState(i), HASTY[i]);
    assert t.toServer == HastyState(i + 1).toServer && t.toClient == HastyState(i + 1).toClient;
  }

  lemma HastyCounts()
    ensures Stamp(Peer(false, 1), W64) == 2 && Sent(Peer(false, 1), W64) == Peer(false, 3)
    ensures Stamp(Peer(false, 3), W64) == 4 && Sent(Peer(false, 3), W64) == Peer(false, 5)
    ensures Reading(Peer(false, 0), W32) == Peer(false, 0) && LoggedOn(2) == Peer(true, 3)
  {
  }

  lemma HastyRest(i: nat)
    requires 3 <= i < |HASTY|
    ensures Enabled(HastyState(i), HASTY[i]) && Do(HastyState(i), HASTY[i]) == HastyState(i + 1)
  {
    var t := Do(HastyState(i), HASTY[i]);
    assert t.toServer == HastyState(i + 1).toServer && t.toClient == HastyState(i + 1).toClient;
  }

  lemma HastyEnds()
    ensures START == HastyState(0) && Reaches(START, [], START)
    ensures var s := HastyState(|HASTY|);
      && s.client.loggedIn && s.unheard == 1 && s.toServer != []
      && s.toServer[0].inSession && s.toServer[0].seen == s.serverSent && !NextPassesAtServer(s)
  {
  }

  lemma {:induction false} Extend(s: State, actions: seq<Action>, t: State, a: Action)
    requires Reaches(s, actions, t) && Enabled(t, a)
    ensures Reaches(s, actions + [a], Do(t, a))
    decreases |actions|
  {
    hide Do, Enabled;
    if actions == [] {
      assert actions + [a] == [a] && [a][1..] == [];
    } else {
      assert (actions + [a])[1..] == actions[1..] + [a];
      Extend(Do(s, actions[0]), actions[1..], t, a);
    }
  }
}

/** The two objects that hold the session counters, each method proved against the steps of Session. */
module Peers {
  import opened Core
  import opened Session

  /** The tag a SessionReject of the header check refers to. */
  datatype RefTag = TargetCompId | SenderCompId | MsgSeqNum

  /** The server's record of a client. */
  class InternalClient {
    var loggedIn: bool
    var shouldDisconnect: bool
    var userId: string
    var seqNum: nat

    ghost predicate Valid()
      reads this
    {
      seqNum < W32
    }

    ghost function View(): Peer
      reads this
    {
      Peer(loggedIn, seqNum)
    }

    constructor ()
      ensures Valid() && View() == START.server && userId == "" && !shouldDisconnect
    {
      loggedIn, shouldDisconnect, userId, seqNum := false, false, "", 0;
    }

    method NextSeqNumber()
      requires Valid()
      modifies this`seqNum
      ensures Valid() && View() == Next(old(View()), W32) && seqNum == (old(seqNum) + 1) % W32
    {
      seqNum := if seqNum == W32 - 1 then 0 else seqNum + 1;
    }

    /** Back to a client that never logged in: a new Logon starts from the same counter as the first. */
    method Disconnect()
      modifies this
      ensures Valid() && View() == START.server && userId == "" && !shouldDisconnect
    {
      userId, loggedIn, shouldDisconnect, seqNum := "", false, false, 0;
    }

    /** Before the bytes read are parsed. */
    method OnRead()
      requires Valid()
      modifies this`seqNum
      ensures Valid() && View() == Reading(old(View()), W32)
      ensures seqNum == if loggedIn then (old(seqNum) + 1) % W32 else old(seqNum)
    {
      if loggedIn { NextSeqNumber(); }
    }

    /** Filling the header of a message and moving on. */
    method OnSend() returns (num: nat)
      requires Valid()
      modifies this`seqNum
      ensures Valid() && num == Stamp(old(View()), W32) && View() == Sent(old(View()), W32)
      ensures var skip := if loggedIn then 0 else 1;
        num == (old(seqNum) + skip) % W32 && seqNum == (old(seqNum) + skip + 1) % W32
    {
      if !loggedIn { NextSeqNumber(); }
      num := seqNum;
      NextSeqNumber();
    }

    /** The first thing wrong with a header for this client; nothing but the target is looked at before the login. */
    method VerifyUserSpecific(provider: string, target: string, sender: string, num: nat) returns (r: Option<RefTag>)
      requires Valid() && num < W32
      ensures !loggedIn ==> (r.None? <==> target == provider)
      ensures loggedIn ==> (r.None? <==> target == provider && sender == userId && num == (seqNum - 1) % W32)
      ensures r == Some(MsgSeqNum) <==> target == provider && loggedIn && sender == userId && num != (seqNum - 1) % W32
      ensures r == Some(SenderCompId) <==> target == provider && loggedIn && sender != userId
      ensures r == Some(TargetCompId) <==> target != provider
      ensures r.None? <==> target == provider && (loggedIn ==> sender == userId) && Passes(View(), W32, num)
    {
      if target != provider { return Some(TargetCompId); }
      if loggedIn {
        if sender != userId {
          return Some(SenderCompId);
        } else if num != (if seqNum == 0 then W32 - 1 else seqNum - 1) {
          return Some(MsgSeqNum);
        }
      }
      r := None;
    }

    /** A Logon that the parser and the encryption check accepted: only the first one of a session counts. */
    method OnLogon(sender: string, num: nat) returns (accepted: bool)
      requires Valid() && num < W32
      modifies this
      ensures Valid() && accepted == !old(loggedIn)
      ensures accepted ==> View() == LoggedOn(num) && userId == sender && shouldDisconnect == old(shouldDisconnect)
      ensures accepted ==> loggedIn && seqNum == (num + 1) % W32
      ensures !accepted ==> View() == old(View()) && userId == old(userId) && shouldDisconnect == old(shouldDisconnect)
    {
      accepted := !loggedIn;
      if accepted {
        loggedIn, userId := true, sender;
        seqNum := (num + 1) % W32;
      }
    }
  }

  /** The client's record of itself. */
  class User {
    var loggedIn: bool
    var userId: string
    var seqNum: nat

    ghost predicate Valid()
      reads this
    {
      seqNum < W64
    }

    ghost function View(): Peer
      reads this
    {
      Peer(loggedIn, seqNum)
    }

    constructor ()
      ensures Valid() && View() == START.client && userId == ""
    {
      loggedIn, userId, seqNum := false, "", 1;
    }

    method NextSeqNumber()
      requires Valid()
      modifies this`seqNum
      ensures Valid() && View() == Next(old(View()), W64) && seqNum == (old(seqNum) + 1) % W64
    {
      seqNum := if seqNum == W64 - 1 then 0 else seqNum + 1;
    }

    method OnRead()
      requires Valid()
      modifies this`seqNum
      ensures Valid() && View() == Reading(old(View()), W64)
      ensures seqNum == if loggedIn then (old(seqNum) + 1) % W64 else old(seqNum)
    {
      if loggedIn { NextSeqNumber(); }
    }

    method OnSend() returns (num: nat)
      requires Valid()
      modifies this`seqNum
      ensures Valid() && num == Stamp(old(View()), W64) && View() == Sent(old(View()), W64)
      ensures var skip := if loggedIn then 0 else 1;
        num == (old(seqNum) + skip) % W32 && seqNum == (old(seqNum) + skip + 1) % W64
    {
      if !loggedIn { NextSeqNumber(); }
      num := seqNum % W32;
      NextSeqNumber();
    }

    method VerifyUserSpecific(provider: string, sender: string, target: string, num: nat) returns (r: Option<RefTag>)
      requires Valid() && num < W32
      ensures !loggedIn ==> (r.None? <==> sender == provider)
      ensures loggedIn ==> (r.None? <==> sender == provider && target == userId && num == (seqNum - 1) % W64)
      ensures r == Some(MsgSeqNum) <==> sender == provider && loggedIn && target == userId && num != (seqNum - 1) % W64
      ensures r == Some(SenderCompId) <==> sender == provider && loggedIn && target != userId
      ensures r == Some(TargetCompId) <==> sender != provider
      ensures r.None? <==> sender == provider && (loggedIn ==> target == userId) && Passes(View(), W64, num)
    {
      if sender != provider { return Some(TargetCompId); }
      if loggedIn {
        if target != userId {
          return Some(SenderCompId);
        } else if num != (if seqNum == 0 then W64 - 1 else seqNum - 1) {
          return Some(MsgSeqNum);
        }
      }
      r := None;
    }

    /** Every Logon that gets here is taken, the first or not. */
    method OnLogon(target: string, num: nat)
      requires num < W32
      modifies this
      ensures Valid() && View() == LoggedOn(num) && userId == target
      ensures loggedIn && seqNum == (num + 1) % W32
    {
      seqNum := (num + 1) % W32;
      loggedIn, userId := true, target;
    }
  }
}

/** The ticket queue as the object the threads share. The blocking spin of lock is not a method here: its reads and its
    assignment are steps of the system in Tickets. */
module QueueMutex {
  import opened Tickets
  import opened TicketLists

  /** The last ticket with an id is at i. */
  predicate Last(queue: seq<Item>, id: nat, i: int) {
    0 <= i < |queue| && queue[i].id == id && forall j :: i < j < |queue| ==> queue[j].id != id
  }

  class QueueMutex {
    var queue: seq<Item>
    var locked: bool

    constructor ()
      ensures queue == [] && !locked
    {
      queue := [];
      locked := false;
    }

    /** allow */
    method Allow(ticket: Item)
      modifies this`queue
      ensures queue == old(queue) + [ticket]
    {
      queue := queue + [ticket];
    }

    /** finish: looks for the id from the back and erases the ticket it finds. */
    method Withdraw(id: nat) returns (found: bool)
      modifies this`queue
      ensures queue == Finish(old(queue), id)
      ensures found <==> exists x :: x in old(queue) && x.id == id
      ensures !found ==> queue == old(queue)
      ensures found ==> exists i :: Last(old(queue), id, i) && queue == old(queue)[..i] + old(queue)[i + 1..]
      ensures DistinctIds(old(queue)) ==> queue == Without(old(queue), id)
    {
      hide Finish, Without, DistinctIds;
      var i := |queue|;
      assert queue[..i] == queue && queue[i..] == [];
      while i > 0 && queue[i - 1].id != id
        invariant queue == old(queue) && 0 <= i <= |queue|
        invariant forall j :: i <= j < |queue| ==> queue[j].id != id
        invariant Finish(queue, id) == Finish(queue[..i], id) + queue[i..]
      {
        FinishSkips(queue, i, id);
        i := i - 1;
      }
      if DistinctIds(queue) { FinishIsWithout(queue, id); }
      found := i > 0;
      if found {
        FinishHits(queue, i, id);
        assert queue[i - 1] in queue && Last(queue, id, i - 1);
        queue := queue[..i - 1] + queue[i..];
      } else {
        FinishMisses(queue, id);
      }
    }

    /** unlock */
    method Unlock()
      requires queue != []
      modifies this
      ensures !locked && queue == old(queue)[1..]
    {
      locked := false;
      queue := queue[1..];
    }
  }

  lemma FinishHits(queue: seq<Item>, i: nat, id: nat)
    requires 0 < i <= |queue| && queue[i - 1].id == id
    ensures Finish(queue[..i], id) == queue[..i - 1]
  {
    assert queue[..i][..i - 1] == queue[..i - 1];
  }

  lemma FinishMisses(queue: seq<Item>, id: nat)
    ensures Finish(queue[..0], id) + queue[0..] == queue
  {
    assert queue[..0] == [] && queue[0..] == queue;
  }

  lemma FinishSkips(queue: seq<Item>, i: nat, id: nat)
    requires 0 < i <= |queue| && queue[i - 1].id != id
    ensures Finish(queue[..i], id) + queue[i..] == Finish(queue[..i - 1], id) + queue[i - 1..]
  {
    assert queue[..i][..i - 1] == queue[..i - 1];
    assert queue[i - 1..] == [queue[i - 1]] + queue[i..];
  }
}

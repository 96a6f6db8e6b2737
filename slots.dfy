/** The session slot table shared by the native bindings: a fixed array of
    1000 slots indexed by `id % 1000`, each idle (0), active (1) or
    cancel-requested (2), and a parallel array counting the callback messages
    of a session that are queued but not yet dispatched. */
module Slots {

  const SessionMapSize := 1000

  const Idle := 0
  const Active := 1
  const CancelRequestedMark := 2

  /** The slot an id maps to; ids equal modulo 1000 share one. */
  function SlotOf(id: int): (k: nat)
    requires id >= 0
    ensures k < SessionMapSize
    ensures (id - k) % SessionMapSize == 0
    ensures id < SessionMapSize ==> k == id
  {
    id % SessionMapSize
  }

  /** Two ids share a slot exactly when they differ by a multiple of 1000. */
  lemma SharedSlot(id: int, other: int)
    requires id >= 0 && other >= 0
    ensures SlotOf(id) == SlotOf(other) <==> (id - other) % SessionMapSize == 0
  {
    var a, b := SlotOf(id), SlotOf(other);
    assert id == a + SessionMapSize * (id / SessionMapSize);
    assert other == b + SessionMapSize * (other / SessionMapSize);
    assert id - other == (a - b) + SessionMapSize * (id / SessionMapSize - other / SessionMapSize);
    if (id - other) % SessionMapSize == 0 {
      assert (a - b) % SessionMapSize == 0;
      assert -SessionMapSize < a - b < SessionMapSize;
    }
  }

  class SessionSlots {
    /** `sessionMap`: the idle / active / cancel-requested mark of each slot. */
    const sessionMap: array<int>
    /** `sessionInTransitMessageCountMap`: queued-but-undelivered messages per slot. */
    const inTransit: array<int>
    /** The engine thread's count of received interrupt signals
        (`received_nb_signals`, one per thread in the engine; here the count of
        the thread running the session, taken as shared with the canceller). */
    var signals: nat

    ghost predicate Valid()
      reads this
    {
      sessionMap.Length == SessionMapSize && inTransit.Length == SessionMapSize && sessionMap != inTransit
    }

    /** Both tables are zero-initialised static arrays. */
    constructor()
      ensures Valid() && fresh(sessionMap) && fresh(inTransit)
      ensures forall k :: 0 <= k < SessionMapSize ==> sessionMap[k] == Idle && inTransit[k] == 0
      ensures signals == 0
    {
      sessionMap := new int[SessionMapSize](_ => Idle);
      inTransit := new int[SessionMapSize](_ => 0);
      signals := 0;
    }

    /** `cancelRequested`: whether the id's slot holds a cancel request. */
    predicate CancelRequested(id: int)
      requires Valid() && id >= 0
      reads this, sessionMap
    {
      sessionMap[SlotOf(id)] == CancelRequestedMark
    }

    /** `messagesInTransmit`: the counter of the id's slot. */
    function MessagesInTransmit(id: int): (n: int)
      requires Valid() && id >= 0
      reads this, inTransit
      ensures forall other :: other >= 0 && SlotOf(other) == SlotOf(id) ==> n == inTransit[SlotOf(other)]
    {
      inTransit[SlotOf(id)]
    }

    /** Stores `mark` in the id's slot and leaves every other slot alone. */
    method Store(id: int, mark: int)
      requires Valid() && id >= 0
      modifies sessionMap
      ensures sessionMap[SlotOf(id)] == mark
      ensures forall k :: 0 <= k < SessionMapSize && k != SlotOf(id) ==> sessionMap[k] == old(sessionMap[k])
    {
      sessionMap[SlotOf(id)] := mark;
    }

    /** `registerSessionId` / `addSession`: marks the slot active, which also
        clears a cancel request left there by an id sharing the slot. */
    method RegisterSessionId(id: int)
      requires Valid() && id >= 0
      modifies sessionMap
      ensures sessionMap[SlotOf(id)] == Active
      ensures forall other :: other >= 0 && SlotOf(other) == SlotOf(id) ==> !CancelRequested(other)
      ensures forall k :: 0 <= k < SessionMapSize && k != SlotOf(id) ==> sessionMap[k] == old(sessionMap[k])
    {
      Store(id, Active);
    }

    /** `removeSession`: marks the slot idle. */
    method RemoveSession(id: int)
      requires Valid() && id >= 0
      modifies sessionMap
      ensures sessionMap[SlotOf(id)] == Idle
      ensures forall other :: other >= 0 && SlotOf(other) == SlotOf(id) ==> !CancelRequested(other)
      ensures forall k :: 0 <= k < SessionMapSize && k != SlotOf(id) ==> sessionMap[k] == old(sessionMap[k])
    {
      Store(id, Idle);
    }

    /** `cancelSession`: records a cancel request, seen by every id sharing the slot. */
    method CancelSession(id: int)
      requires Valid() && id >= 0
      modifies sessionMap
      ensures sessionMap[SlotOf(id)] == CancelRequestedMark
      ensures forall other :: other >= 0 && SlotOf(other) == SlotOf(id) ==> CancelRequested(other)
      ensures forall k :: 0 <= k < SessionMapSize && k != SlotOf(id) ==> sessionMap[k] == old(sessionMap[k])
    {
      Store(id, CancelRequestedMark);
    }

    /** `cancel_operation`: id 0 raises an interrupt signal in the engine,
        which stops every run; any other id requests cancellation of its slot. */
    method CancelOperation(id: int)
      requires Valid() && id >= 0
      modifies this, sessionMap
      ensures id == 0 ==> signals == old(signals) + 1 && sessionMap[..] == old(sessionMap[..])
      ensures id != 0 ==> signals == old(signals) && CancelRequested(id)
      ensures id != 0 ==> forall k :: 0 <= k < SessionMapSize && k != SlotOf(id) ==> sessionMap[k] == old(sessionMap[k])
      ensures inTransit[..] == old(inTransit[..])
    {
      if id == 0 {
        signals := signals + 1;
      } else {
        CancelSession(id);
      }
    }

    /** `resetMessagesInTransmit`: zeroes the id's counter. */
    method ResetMessagesInTransmit(id: int)
      requires Valid() && id >= 0
      modifies inTransit
      ensures MessagesInTransmit(id) == 0
      ensures forall k :: 0 <= k < SessionMapSize && k != SlotOf(id) ==> inTransit[k] == old(inTransit[k])
    {
      inTransit[SlotOf(id)] := 0;
    }

    /** The counter increment done after a message is queued. */
    method IncrementInTransit(id: int)
      requires Valid() && id >= 0
      modifies inTransit
      ensures MessagesInTransmit(id) == old(MessagesInTransmit(id)) + 1
      ensures forall k :: 0 <= k < SessionMapSize && k != SlotOf(id) ==> inTransit[k] == old(inTransit[k])
    {
      inTransit[SlotOf(id)] := inTransit[SlotOf(id)] + 1;
    }

    /** The counter decrement done after a message is dispatched. */
    method DecrementInTransit(id: int)
      requires Valid() && id >= 0
      modifies inTransit
      ensures MessagesInTransmit(id) == old(MessagesInTransmit(id)) - 1
      ensures forall k :: 0 <= k < SessionMapSize && k != SlotOf(id) ==> inTransit[k] == old(inTransit[k])
    {
      inTransit[SlotOf(id)] := inTransit[SlotOf(id)] - 1;
    }
  }
}

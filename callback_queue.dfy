/** The records the engine's log and statistics hooks queue for the callback
    thread, and the Android native binding's queue of them: a singly linked
    list with head and tail pointers, appended at the tail and removed at the head. */
module CallbackQueue {
  import opened LogLines
  import opened Slots

  /** One queued record. Statistics keep only their integer fields. */
  datatype CallbackData =
    | LogData(sessionId: int, level: int, message: seq<byte>)
    | StatisticsData(sessionId: int, frameNumber: int, size: int)

  /** Number of queued records whose session maps to slot `k`. */
  function Pending(l: seq<CallbackData>, k: int): (n: nat)
    requires forall i :: 0 <= i < |l| ==> l[i].sessionId >= 0
    ensures n <= |l|
  {
    if |l| == 0 then 0
    else (if SlotOf(l[0].sessionId) == k then 1 else 0) + Pending(l[1..], k)
  }

  /** Appending a record adds one to its slot's count and nothing to the others. */
  lemma {:induction false} PendingAppend(l: seq<CallbackData>, d: CallbackData, k: int)
    requires forall i :: 0 <= i < |l| ==> l[i].sessionId >= 0
    requires d.sessionId >= 0
    ensures Pending(l + [d], k) == Pending(l, k) + (if SlotOf(d.sessionId) == k then 1 else 0)
  {
    if |l| == 0 {
      assert l + [d] == [d];
    } else {
      assert (l + [d])[1..] == l[1..] + [d];
      PendingAppend(l[1..], d, k);
    }
  }

  class Node {
    const data: CallbackData
    var next: Node?

    constructor(data: CallbackData)
      ensures this.data == data && next == null
    {
      this.data := data;
      next := null;
    }
  }

  class LinkedCallbackQueue {
    /** `callbackDataHead` and `callbackDataTail`. */
    var head: Node?
    var tail: Node?
    /** The nodes from head to tail, and the records they carry. */
    ghost var nodes: seq<Node>
    ghost var Contents: seq<CallbackData>
    ghost var Repr: set<object>

    ghost predicate Valid()
      reads this, Repr
    {
      && this in Repr
      && |nodes| == |Contents|
      && (forall i :: 0 <= i < |nodes| ==> nodes[i] in Repr && nodes[i].data == Contents[i])
      && (forall i :: 0 <= i < |nodes| - 1 ==> nodes[i].next == nodes[i + 1])
      && (forall i, j :: 0 <= i < j < |nodes| ==> nodes[i] != nodes[j])
      && (|nodes| == 0 ==> head == null && tail == null)
      && (|nodes| > 0 ==> head == nodes[0] && tail == nodes[|nodes| - 1] && tail.next == null)
    }

    /** Both pointers start out NULL. */
    constructor()
      ensures Valid() && fresh(Repr) && Contents == []
      ensures head == null && tail == null
    {
      head := null;
      tail := null;
      nodes := [];
      Contents := [];
      Repr := {this};
    }

    /** The insertion of `logCallbackDataAdd` / `statisticsCallbackDataAdd`: a
        new node becomes the tail, and the head too when the queue was empty. */
    method Enqueue(data: CallbackData)
      requires Valid()
      modifies Repr
      ensures Valid() && fresh(Repr - old(Repr))
      ensures Contents == old(Contents) + [data]
      ensures tail != null && tail.data == data && tail.next == null && head != null
      ensures old(head) != null ==> head == old(head)
    {
      var n := new Node(data);
      if tail == null {
        tail := n;
        if head == null {
          head := n;
        }
      } else {
        tail.next := n;
        tail := n;
      }
      nodes := nodes + [n];
      Contents := Contents + [data];
      Repr := Repr + {n};
    }

    /** `callbackDataRemove`: detaches and returns the head node, or NULL when
        the queue is empty; taking the only node resets both pointers. */
    method Remove() returns (n: Node?)
      requires Valid()
      modifies this
      ensures Valid() && Repr <= old(Repr)
      ensures old(Contents) == [] ==> n == null && Contents == []
      ensures old(Contents) != [] ==> n == old(head) && n != null && n.data == old(Contents[0]) && Contents == old(Contents[1..])
      ensures |old(Contents)| == 1 ==> head == null && tail == null
    {
      if head == null {
        n := null;
      } else {
        n := head;
        var nextHead := n.next;
        if nextHead == null {
          if head == tail {
            tail := null;
          }
          head := null;
        } else {
          head := nextHead;
        }
        nodes := nodes[1..];
        Contents := Contents[1..];
        Repr := Repr - {n};
      }
    }
  }
}

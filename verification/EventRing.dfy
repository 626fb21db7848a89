/** Callback events and the circular list they are linked into. */
module EventRing {
  datatype Status = Created | Running | Completed | Cancelled

  // ---- Rings -------------------------------------------------------------------------------

  function Succ(n: nat, i: int): int {
    if i + 1 == n then 0 else i + 1
  }

  function Pred(n: nat, i: int): int {
    if i == 0 then n - 1 else i - 1
  }

  /** The i-th node of a ring is linked to its neighbours. */
  ghost predicate At(ring: seq<Event>, i: int)
    requires 0 <= i < |ring|
    reads ring`prev, ring`next
  {
    ring[i].next == ring[Succ(|ring|, i)] && ring[i].prev == ring[Pred(|ring|, i)]
  }

  // Both parts of the invariant are recursive, so that they stay folded where only the list as a
  // whole matters; RingFacts unfolds and MakeRing folds them.

  ghost predicate NoRepeats(ring: seq<Event>, n: nat)
    requires n <= |ring|
  {
    n == 0 || (ring[n - 1] !in ring[..n - 1] && NoRepeats(ring, n - 1))
  }

  ghost predicate LinkedUpTo(ring: seq<Event>, n: nat)
    requires n <= |ring|
    reads ring`prev, ring`next
  {
    n == 0 || (At(ring, n - 1) && LinkedUpTo(ring, n - 1))
  }

  /** The nodes form one circular doubly linked list, in this order. */
  ghost predicate Linked(ring: seq<Event>)
    reads ring`prev, ring`next
  {
    |ring| > 0 && NoRepeats(ring, |ring|) && LinkedUpTo(ring, |ring|)
  }

  lemma {:induction false} RepeatFacts(ring: seq<Event>, n: nat)
    requires n <= |ring|
    ensures NoRepeats(ring, n) <==> forall i, j :: 0 <= i < j < n ==> ring[i] != ring[j]
  {
    if n > 0 {
      RepeatFacts(ring, n - 1);
      if NoRepeats(ring, n) {
        forall i | 0 <= i < n - 1 ensures ring[i] != ring[n - 1] {
          assert ring[..n - 1][i] == ring[i];
        }
      }
    }
  }

  lemma {:induction false} LinkFacts(ring: seq<Event>, n: nat)
    requires n <= |ring|
    ensures LinkedUpTo(ring, n) <==> forall i :: 0 <= i < n ==> At(ring, i)
  {
    if n > 0 {
      LinkFacts(ring, n - 1);
    }
  }

  lemma RingFacts(ring: seq<Event>)
    requires Linked(ring)
    ensures forall i, j :: 0 <= i < j < |ring| ==> ring[i] != ring[j]
    ensures forall i :: 0 <= i < |ring| ==> At(ring, i)
  {
    RepeatFacts(ring, |ring|);
    LinkFacts(ring, |ring|);
  }

  lemma MakeRing(ring: seq<Event>)
    requires |ring| > 0 && (forall i, j :: 0 <= i < j < |ring| ==> ring[i] != ring[j])
             && (forall i :: 0 <= i < |ring| ==> At(ring, i))
    ensures Linked(ring)
  {
    RepeatFacts(ring, |ring|);
    LinkFacts(ring, |ring|);
  }

  ghost function Inserted(ring: seq<Event>, k: nat, e: Event): seq<Event>
    requires k < |ring|
  {
    ring[..k + 1] + [e] + ring[k + 1..]
  }

  ghost function Removed(ring: seq<Event>, k: nat): seq<Event>
    requires k < |ring|
  {
    ring[..k] + ring[k + 1..]
  }

  lemma InsertedDistinct(ring: seq<Event>, k: nat, e: Event)
    requires k < |ring| && e !in ring && forall i, j :: 0 <= i < j < |ring| ==> ring[i] != ring[j]
    ensures forall i, j :: 0 <= i < j < |ring| + 1 ==> Inserted(ring, k, e)[i] != Inserted(ring, k, e)[j]
  {
  }

  class Event {
    const id: int
    const sender: int
    const handlerThis: int
    const handlerFunc: int
    /** Whether posting this event replaces the pending ones with the same key, and whether it has a
        function that is asked first. */
    const duplicated: bool
    const coalesces: bool
    /** Whether its sender waits for it. */
    const sync: bool
    const dueAt: int
    var priority: nat
    var status: Status
    var completed: bool
    var prev: Event?
    var next: Event?

    constructor (id: int, sender: int, handlerThis: int, handlerFunc: int, duplicated: bool, coalesces: bool,
            sync: bool, dueAt: int, priority: nat)
      ensures this.id == id && this.sender == sender && this.handlerThis == handlerThis
              && this.handlerFunc == handlerFunc
      ensures this.duplicated == duplicated && this.coalesces == coalesces && this.sync == sync && this.dueAt == dueAt
      ensures this.priority == priority && status == Created && !completed
    {
      this.id, this.sender, this.handlerThis, this.handlerFunc := id, sender, handlerThis, handlerFunc;
      this.duplicated, this.coalesces, this.sync := duplicated, coalesces, sync;
      this.dueAt, this.priority := dueAt, priority;
      status, completed, prev, next := Created, false, null, null;
    }

    /** Initialize: a list of its own. */
    method Initialize()
      modifies this`prev, this`next
      ensures Linked([this])
    {
      prev, next := this, this;
      MakeRing([this]);
    }

    /** InsertNext, at the k-th place of the ring. */
    method InsertNext(nextNode: Event, ghost ring: seq<Event>, ghost k: nat)
      requires Linked(ring) && k < |ring| && ring[k] == this && nextNode !in ring
      modifies ring`prev, ring`next, nextNode`prev, nextNode`next
      ensures Linked(Inserted(ring, k, nextNode))
    {
      RingFacts(ring);
      assert At(ring, k);
      nextNode.prev := this;
      nextNode.next := next;
      next.prev := nextNode;
      next := nextNode;
      ghost var more := Inserted(ring, k, nextNode);
      forall i | 0 <= i < |more| ensures At(more, i) {
        assert i != k + 1 ==> old(At(ring, if i <= k then i else i - 1));
        assert old(At(ring, k));
      }
      InsertedDistinct(ring, k, nextNode);
      MakeRing(more);
    }

    /** Detach, from the k-th place of the ring. */
    method Detach(ghost ring: seq<Event>, ghost k: nat)
      requires Linked(ring) && k < |ring| && ring[k] == this && |ring| > 1
      modifies ring`prev, ring`next
      ensures Linked(Removed(ring, k))
    {
      RingFacts(ring);
      assert At(ring, k);
      prev.next := next;
      next.prev := prev;
      ghost var less := Removed(ring, k);
      forall i | 0 <= i < |less| ensures At(less, i) {
        assert old(At(ring, if i < k then i else i + 1));
        assert old(At(ring, k));
      }
      MakeRing(less);
    }
  }
}

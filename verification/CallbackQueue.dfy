/** The queue of a callback context: events waiting in the order of priority and due time, and what
    becomes of each of them. Every method is one section under the queue's lock. */
module CallbackQueue {
  import opened EventRing

  /** What has become of an event that was posted. */
  datatype Fate = Pending | Current | Handling | Done | Dropped | Coalesced

  datatype Option<T> = None | Some(value: T)

  // ---- The order of the queue --------------------------------------------------------------

  /** f may stand before e. */
  ghost predicate NotAfter(f: Event, e: Event)
    reads f`priority, e`priority
  {
    f.priority < e.priority || (f.priority == e.priority && f.dueAt <= e.dueAt)
  }

  ghost predicate SortedUpTo(nodes: seq<Event>, n: nat)
    requires n <= |nodes|
    reads nodes`priority
  {
    n <= 1 || (NotAfter(nodes[n - 2], nodes[n - 1]) && SortedUpTo(nodes, n - 1))
  }

  /** Events stand in the order of priority and, among equals, of due time. */
  ghost predicate Sorted(nodes: seq<Event>)
    reads nodes`priority
  {
    SortedUpTo(nodes, |nodes|)
  }

  lemma {:induction false} SortedFacts(nodes: seq<Event>, n: nat)
    requires n <= |nodes|
    ensures SortedUpTo(nodes, n) <==> forall i, j :: 0 <= i < j < n ==> NotAfter(nodes[i], nodes[j])
  {
    if n > 1 {
      SortedFacts(nodes, n - 1);
    }
  }

  ghost function Cut(nodes: seq<Event>, k: nat): seq<Event>
    requires k < |nodes|
  {
    nodes[..k] + nodes[k + 1..]
  }

  lemma SortedWithout(nodes: seq<Event>, k: nat)
    requires Sorted(nodes) && k < |nodes|
    ensures Sorted(Cut(nodes, k))
  {
    var less := Cut(nodes, k);
    SortedFacts(nodes, |nodes|);
    SortedFacts(less, |less|);
    assert forall i :: 0 <= i < |less| ==> less[i] == nodes[if i < k then i else i + 1];
  }

  predicate SameKey(e: Event, f: Event) {
    e.id == f.id && e.sender == f.sender && e.handlerThis == f.handlerThis && e.handlerFunc == f.handlerFunc
  }

  /** What the coalescing function of a new event says: to merge these older events into it, to drop
      both for these, and to keep all others. */
  datatype Verdicts = Verdicts(merge: set<Event>, both: set<Event>)

  /** Posting e replaces p. */
  predicate Merges(e: Event, p: Event, says: Verdicts) {
    SameKey(e, p) && (!e.coalesces || (p in says.merge && p !in says.both))
  }

  predicate Drops(e: Event, p: Event, says: Verdicts) {
    SameKey(e, p) && e.coalesces && p in says.both
  }

  /** The events that a cancelling call selects. */
  datatype Choice =
    | OfSender(sender: int)
    | OfId(sender: int, id: int)
    | OfHandler(sender: int, id: int, handlerThis: int, handlerFunc: int)

  predicate Chosen(which: Choice, e: Event) {
    match which
    case OfSender(sender) => e.sender == sender
    case OfId(sender, id) => e.sender == sender && e.id == id
    case OfHandler(sender, id, handlerThis, handlerFunc) =>
      e.sender == sender && e.id == id && e.handlerThis == handlerThis && e.handlerFunc == handlerFunc
  }

  /** The events from the k-th on that e does not replace, in their order. */
  ghost function Kept(s: seq<Event>, k: nat, e: Event, says: Verdicts): (kept: seq<Event>)
    requires k <= |s|
    ensures forall x :: x in kept ==> x in s
    decreases |s| - k
  {
    if k == |s| then [] else (if Merges(e, s[k], says) then [] else [s[k]]) + Kept(s, k + 1, e, says)
  }

  /** What a cancelling call leaves of the first n events. */
  ghost function Rejected(s: seq<Event>, n: nat, which: Choice): seq<Event>
    requires n <= |s|
  {
    if n == 0 then [] else Rejected(s, n - 1, which) + if Chosen(which, s[n - 1]) then [] else [s[n - 1]]
  }

  lemma LacksRemoved(head: Event, nodes: seq<Event>, k: nat)
    requires Linked([head] + nodes) && k < |nodes|
    ensures nodes[k] !in nodes[..k] + nodes[k + 1..] && nodes[k] != head && head !in nodes
  {
    var ring := [head] + nodes;
    RingFacts(ring);
    assert forall i :: 0 <= i < |nodes| ==> nodes[i] == ring[i + 1];
    assert ring[0] == head;
  }

  ghost predicate AllAfter(nodes: seq<Event>, k: nat, e: Event)
    requires k <= |nodes|
    reads nodes`priority, e`priority
    decreases |nodes| - k
  {
    k == |nodes| || (!NotAfter(nodes[k], e) && AllAfter(nodes, k + 1, e))
  }

  /** e belongs behind the first k events: the last of them may stand before it, and none after them. */
  ghost predicate Belongs(nodes: seq<Event>, k: nat, e: Event)
    reads nodes`priority, e`priority
  {
    k <= |nodes| && (k == 0 || NotAfter(nodes[k - 1], e)) && AllAfter(nodes, k, e)
  }

  lemma {:induction false} AfterFacts(nodes: seq<Event>, k: nat, e: Event)
    requires k <= |nodes|
    ensures AllAfter(nodes, k, e) <==> forall i :: k <= i < |nodes| ==> !NotAfter(nodes[i], e)
    decreases |nodes| - k
  {
    if k < |nodes| {
      AfterFacts(nodes, k + 1, e);
    }
  }

  /** In a sorted queue that is first in, first out: everything before e may stand before it, and
      nothing after it may. */
  lemma BelongsExactly(nodes: seq<Event>, k: nat, e: Event)
    requires Sorted(nodes) && k <= |nodes|
    ensures Belongs(nodes, k, e) <==> forall i :: 0 <= i < |nodes| ==> (NotAfter(nodes[i], e) <==> i < k)
  {
    SortedFacts(nodes, |nodes|);
    AfterFacts(nodes, k, e);
    if Belongs(nodes, k, e) {
      forall i | 0 <= i < k ensures NotAfter(nodes[i], e) {
        assert i < k - 1 ==> NotAfter(nodes[i], nodes[k - 1]);
      }
    }
  }

  ghost function Spliced(nodes: seq<Event>, k: nat, e: Event): seq<Event>
    requires k <= |nodes|
  {
    nodes[..k] + [e] + nodes[k..]
  }

  lemma SortedWith(nodes: seq<Event>, k: nat, e: Event)
    requires Sorted(nodes) && Belongs(nodes, k, e) && e !in nodes
    ensures Sorted(Spliced(nodes, k, e))
  {
    var more := Spliced(nodes, k, e);
    BelongsExactly(nodes, k, e);
    SortedFacts(nodes, |nodes|);
    SortedFacts(more, |more|);
    assert forall i :: 0 <= i < |more| ==> more[i] == if i < k then nodes[i] else if i == k then e else nodes[i - 1];
  }

  /** The list, half way through a cancelling call: the first k events were kept of the first i, and
      the others are still to be looked at. */
  ghost predicate Scanned(nodes: seq<Event>, before: seq<Event>, i: nat, k: nat, which: Choice) {
    && i <= |before| && k <= |nodes| && |nodes| - k == |before| - i
    && nodes[..k] == Rejected(before, i, which)
    && forall j :: i <= j < |before| ==> nodes[j - i + k] == before[j]
  }

  lemma ScanMoved(nodes: seq<Event>, more: seq<Event>, before: seq<Event>, i: nat, k: nat, which: Choice)
    requires Scanned(nodes, before, i, k, which) && k < |nodes|
    requires more == nodes[..k] + Passed(which, before[i]) + nodes[k + 1..]
    ensures Scanned(more, before, i + 1, k + |Passed(which, before[i])|, which)
  {
    var m := k + |Passed(which, before[i])|;
    assert more[..m] == nodes[..k] + Passed(which, before[i]);
  }

  lemma ScanEnds(nodes: seq<Event>, before: seq<Event>, i: nat, k: nat, which: Choice)
    requires Scanned(nodes, before, i, k, which) && k == |nodes|
    ensures i == |before| && nodes == Rejected(before, |before|, which)
  {
    assert nodes[..k] == nodes;
  }

  ghost function Passed(which: Choice, e: Event): seq<Event> {
    if Chosen(which, e) then [] else [e]
  }

  /** Some of the chosen events have been dropped; nothing else has happened to any event. */
  ghost predicate FatesCancelled(was: map<Event, Fate>, fates: map<Event, Fate>, before: seq<Event>, which: Choice) {
    && fates.Keys == was.Keys
    && (forall e {:trigger fates[e]} :: e in fates ==>
      fates[e] == was[e] || (fates[e] == Dropped && e in before && Chosen(which, e)))
  }

  lemma FatesCancel(was: map<Event, Fate>, fates: map<Event, Fate>, before: seq<Event>, which: Choice, e: Event)
    requires FatesCancelled(was, fates, before, which) && e in fates && e in before
    ensures FatesCancelled(was, if Chosen(which, e) then fates[e := Dropped] else fates, before, which)
  {
  }

  // ---- Coalescing --------------------------------------------------------------------------

  /** The priority that a posted event ends up with, going by the events from the k-th on: that of the
      first one it replaces. */
  ghost function Urgency(s: seq<Event>, k: nat, e: Event, says: Verdicts): nat
    requires k <= |s|
    reads s`priority, e`priority
    decreases |s| - k
  {
    if k == |s| then e.priority else if Merges(e, s[k], says) then s[k].priority else Urgency(s, k + 1, e, says)
  }

  function Least(x: nat, y: nat): nat {
    if x <= y then x else y
  }

  /** No event from the k-th on cancels itself together with e. */
  ghost predicate NoDrops(s: seq<Event>, k: nat, e: Event, says: Verdicts)
    requires k <= |s|
    decreases |s| - k
  {
    k == |s| || (!Drops(e, s[k], says) && NoDrops(s, k + 1, e, says))
  }

  /** Events that e replaces have been coalesced; nothing else has happened to any event. */
  ghost predicate FatesChange(was: map<Event, Fate>, fates: map<Event, Fate>, before: seq<Event>, e: Event,
          says: Verdicts)
  {
    && fates.Keys == was.Keys
    && (forall x {:trigger fates[x]} :: x in fates ==>
      fates[x] == was[x] || (fates[x] == Coalesced && x in before && Merges(e, x, says)))
  }

  /** As before, but the event x, which cancels itself and e, has been coalesced too. */
  ghost predicate FatesDropped(was: map<Event, Fate>, fates: map<Event, Fate>, before: seq<Event>, e: Event,
          says: Verdicts, x: Event)
  {
    x in was && x in fates && fates[x] == Coalesced && FatesChange(was, fates[x := was[x]], before, e, says)
  }

  lemma FatesDrop(was: map<Event, Fate>, fates: map<Event, Fate>, before: seq<Event>, e: Event, says: Verdicts,
          x: Event)
    requires FatesChange(was, fates, before, e, says) && x in fates
    ensures FatesDropped(was, fates[x := Coalesced], before, e, says, x)
  {
  }

  lemma FatesPending(was: map<Event, Fate>, fates: map<Event, Fate>, before: seq<Event>, e: Event, says: Verdicts)
    requires FatesChange(was, fates, before, e, says) && e !in fates
    ensures FatesChange(was, fates[e := Pending] - {e}, before, e, says)
  {
  }

  /** But for e, pending events may have been coalesced, and no more. */
  ghost predicate OthersCoalesced(was: map<Event, Fate>, fates: map<Event, Fate>, e: Event) {
    && (forall x {:trigger x in fates} {:trigger x in was} :: x in fates ==> x == e || x in was)
    && (forall x {:trigger fates[x]} {:trigger was[x]} :: x in was && x != e ==>
      x in fates && (fates[x] == was[x] || (fates[x] == Coalesced && was[x] == Pending)))
  }

  lemma ChangeCoalesces(was: map<Event, Fate>, fates: map<Event, Fate>, before: seq<Event>, e: Event, says: Verdicts)
    requires FatesChange(was, fates - {e}, before, e, says) && forall x :: x in before ==> x in was && was[x] == Pending
    ensures OthersCoalesced(was, fates, e)
  {
    forall x | x in was && x != e
      ensures x in fates && (fates[x] == was[x] || (fates[x] == Coalesced && was[x] == Pending)) {
      assert x in fates - {e} && (fates - {e})[x] == fates[x];
    }
    forall x | x in fates && x != e ensures x in was {
      assert x in fates - {e};
    }
  }

  lemma DropCoalesces(was: map<Event, Fate>, fates: map<Event, Fate>, before: seq<Event>, e: Event, says: Verdicts,
          d: Event)
    requires FatesDropped(was, fates - {e}, before, e, says, d) && d in before
             && forall x :: x in before ==> x in was && was[x] == Pending
    ensures OthersCoalesced(was, fates, e)
  {
    var less := (fates - {e})[d := was[d]];
    forall x | x in was && x != e
      ensures x in fates && (fates[x] == was[x] || (fates[x] == Coalesced && was[x] == Pending)) {
      assert x in less && (x != d ==> less[x] == fates[x]);
      assert (fates - {e})[d] == fates[d];
    }
    forall x | x in fates && x != e ensures x in was {
      assert x in less;
    }
  }

  lemma FatesMerged(was: map<Event, Fate>, fates: map<Event, Fate>, before: seq<Event>, e: Event,
          says: Verdicts, prev: Event)
    requires FatesChange(was, fates, before, e, says) && prev in fates && prev in before && Merges(e, prev, says)
    ensures FatesChange(was, fates[prev := Coalesced], before, e, says)
  {
  }

  /** The first j events are untouched, and what stands behind the first k is what e does not replace. */
  ghost predicate Back(nodes: seq<Event>, before: seq<Event>, k: nat, j: nat, e: Event, says: Verdicts)
    decreases j
  {
    && j <= k <= |before| && k <= |nodes|
    && if j == 0 then nodes[k..] == Kept(before, k, e, says)
      else nodes[j - 1] == before[j - 1] && Back(nodes, before, k, j - 1, e, says)
  }

  /** The queue half way through the scan: the first k events are untouched, and of the others those
      that e replaces are gone. */
  ghost predicate ScannedBack(nodes: seq<Event>, before: seq<Event>, k: nat, e: Event, says: Verdicts) {
    Back(nodes, before, k, k, e, says)
  }

  lemma {:induction false} BackFacts(nodes: seq<Event>, before: seq<Event>, k: nat, j: nat, e: Event, says: Verdicts)
    requires j <= k <= |before| && k <= |nodes|
    ensures Back(nodes, before, k, j, e, says) <==> nodes[..j] == before[..j] && nodes[k..] == Kept(before, k, e, says)
  {
    if j > 0 {
      BackFacts(nodes, before, k, j - 1, e, says);
      assert nodes[..j] == nodes[..j - 1] + [nodes[j - 1]];
      assert before[..j] == before[..j - 1] + [before[j - 1]];
    }
  }

  lemma ScanPassed(nodes: seq<Event>, before: seq<Event>, k: nat, e: Event, says: Verdicts)
    requires ScannedBack(nodes, before, k, e, says) && k > 0 && !Merges(e, before[k - 1], says)
    ensures ScannedBack(nodes, before, k - 1, e, says)
  {
    BackFacts(nodes, before, k, k, e, says);
    BackFacts(nodes, before, k - 1, k - 1, e, says);
    assert nodes[..k - 1] == nodes[..k][..k - 1] && before[..k - 1] == before[..k][..k - 1];
    assert nodes[k - 1] == nodes[..k][k - 1] == before[..k][k - 1];
    assert nodes[k - 1..] == [nodes[k - 1]] + nodes[k..];
  }

  lemma ScanRemoved(nodes: seq<Event>, before: seq<Event>, k: nat, e: Event, says: Verdicts)
    requires ScannedBack(nodes, before, k, e, says) && k > 0 && Merges(e, before[k - 1], says)
    ensures ScannedBack(Cut(nodes, k - 1), before, k - 1, e, says)
  {
    var less := Cut(nodes, k - 1);
    BackFacts(nodes, before, k, k, e, says);
    BackFacts(less, before, k - 1, k - 1, e, says);
    assert less[..k - 1] == nodes[..k][..k - 1] && before[..k - 1] == before[..k][..k - 1];
    assert less[k - 1..] == nodes[k..];
  }

  lemma ScanCut(nodes: seq<Event>, before: seq<Event>, k: nat, e: Event, says: Verdicts)
    requires ScannedBack(nodes, before, k, e, says) && k > 0
    ensures Cut(nodes, k - 1) == before[..k - 1] + Kept(before, k, e, says)
  {
    BackFacts(nodes, before, k, k, e, says);
    assert nodes[..k - 1] == nodes[..k][..k - 1] && before[..k - 1] == before[..k][..k - 1];
  }

  lemma ScanAll(nodes: seq<Event>, before: seq<Event>, e: Event, says: Verdicts)
    requires ScannedBack(nodes, before, 0, e, says)
    ensures nodes == Kept(before, 0, e, says)
  {
    assert nodes[0..] == nodes;
  }

  class Context {
    /** The sentinel of mEventQueue. */
    const head: Event
    var count: int
    var finishing: bool
    ghost var nodes: seq<Event>
    ghost var fates: map<Event, Fate>
    /** The events whose senders wait no longer. */
    ghost var abandoned: set<Event>

    ghost predicate WellFormed()
      reads this, head`prev, head`next, nodes`prev, nodes`next
    {
      && Linked([head] + nodes) && count == |nodes|
      && (forall e :: e in nodes ==> e in fates && fates[e] == Pending)
      && (forall e :: e in fates && fates[e] == Pending ==> e in nodes)
    }

    ghost predicate Valid()
      reads this, head`prev, head`next, nodes`prev, nodes`next, nodes`priority
    {
      WellFormed() && Sorted(nodes)
    }

    /** The marks of an event say what has become of it: a sender that waits for completion is woken by an
        event that was dropped or handled, and by no other; and an event that waits to be handled is
        marked as cancelled only if its sender has given up. */
    ghost predicate Marked(e: Event)
      requires e in fates
      reads this`fates, this`abandoned, e`status, e`completed
    {
      match fates[e]
      case Dropped => e.completed && e.status == Cancelled
      case Done => (e.completed ==> e.sync && if e in abandoned then e.status == Cancelled || e.status == Completed
                                        else e.status == Completed)
      case Handling => !e.completed
                       && e.status == if e in abandoned then Cancelled else if e.sync then Running else Created
      case _ => !e.completed && e.status == if e in abandoned then Cancelled else Created
    }

    ghost predicate Agree()
      reads this`fates, this`abandoned, fates.Keys`status, fates.Keys`completed
    {
      forall e {:trigger fates[e]} :: e in fates ==> Marked(e)
    }

    constructor ()
      ensures Valid() && Agree() && nodes == [] && fates == map[] && abandoned == {} && !finishing
    {
      head := new Event(0, 0, 0, 0, false, false, false, 0, 0);
      count, finishing, nodes, fates, abandoned := 0, false, [], map[], {};
      new;
      head.Initialize();
      assert [head] + nodes == [head];
    }

    /** Detach the k-th pending event. */
    method Unlink(e: Event, fate: Fate, ghost k: nat)
      requires WellFormed() && k < |nodes| && nodes[k] == e && fate != Pending
      modifies this`count, this`nodes, this`fates, fates.Keys`prev, fates.Keys`next, head`prev, head`next
      ensures WellFormed() && nodes == Cut(old(nodes), k) && fates == old(fates)[e := fate]
    {
      ghost var ring := [head] + nodes;
      LacksRemoved(head, nodes, k);
      e.Detach(ring, k + 1);
      assert Removed(ring, k + 1) == [head] + (nodes[..k] + nodes[k + 1..]);
      count := count - 1;
      nodes := nodes[..k] + nodes[k + 1..];
      fates := fates[e := fate];
    }

    /** The same in a sorted queue. */
    method TakeOut(e: Event, fate: Fate, ghost k: nat)
      requires Valid() && k < |nodes| && nodes[k] == e && fate != Pending
      modifies this`count, this`nodes, this`fates, fates.Keys`prev, fates.Keys`next, head`prev, head`next
      ensures Valid() && nodes == Cut(old(nodes), k) && fates == old(fates)[e := fate]
    {
      SortedWithout(nodes, k);
      Unlink(e, fate, k);
    }

    /** Insert e behind the first k pending events. */
    method Link(place: Event, e: Event, ghost k: nat)
      requires WellFormed() && k <= |nodes| && place == NodeBefore(k) && e !in nodes && e != head
      modifies this`count, this`nodes, this`fates, fates.Keys`prev, fates.Keys`next, head`prev, head`next, e`prev, e`next
      ensures WellFormed() && nodes == Spliced(old(nodes), k, e) && fates == old(fates)[e := Pending]
    {
      ghost var ring := [head] + nodes;
      assert ring[k] == place && e !in ring;
      place.InsertNext(e, ring, k);
      assert Inserted(ring, k, e) == [head] + (nodes[..k] + [e] + nodes[k..]);
      count := count + 1;
      nodes := nodes[..k] + [e] + nodes[k..];
      fates := fates[e := Pending];
    }

    // ---- Walking the list ------------------------------------------------------------------

    /** The i-th pending event, and the sentinel after the last. */
    ghost function NodeAt(i: nat): Event
      requires i <= |nodes|
      reads this
    {
      if i < |nodes| then nodes[i] else head
    }

    /** The pending event before the i-th, and the sentinel before the first. */
    ghost function NodeBefore(i: nat): Event
      requires i <= |nodes|
      reads this
    {
      if i == 0 then head else nodes[i - 1]
    }

    lemma Neighbours(i: nat)
      requires WellFormed() && i <= |nodes|
      ensures NodeBefore(i).next == NodeAt(i) && NodeAt(i).prev == NodeBefore(i)
      ensures i < |nodes| ==> nodes[i] != head
      ensures i > 0 ==> nodes[i - 1] != head
    {
      var ring := [head] + nodes;
      RingFacts(ring);
      assert At(ring, i);
      assert At(ring, if i < |nodes| then i + 1 else 0);
      assert head == ring[0] && (i < |nodes| ==> ring[i + 1] == nodes[i]) && (i > 0 ==> ring[i] == nodes[i - 1]);
    }

    // ---- Cancelling ------------------------------------------------------------------------

    /** One pending event is cancelled. */
    method Cancel(e: Event, ghost k: nat)
      requires WellFormed() && Sorted(nodes) && k < |nodes| && nodes[k] == e
      modifies this`count, this`nodes, this`fates, fates.Keys`prev, fates.Keys`next, head`prev, head`next, e`status,
        e`completed
      ensures WellFormed() && Sorted(nodes) && nodes == Cut(old(nodes), k) && fates == old(fates)[e := Dropped]
      ensures e.status == Cancelled && e.completed
      ensures old(Agree()) ==> Agree()
    {
      TakeOut(e, Dropped, k);
      e.status := Cancelled;
      e.completed := true;
      MarkedAnew(e);
    }

    /** Only the event e has changed. */
    twostate lemma MarkedAnew(e: Event)
      requires e in old(fates) && fates.Keys == old(fates.Keys) && abandoned == old(abandoned) && Marked(e)
      requires forall x :: x in fates && x != e ==>
        fates[x] == old(fates[x]) && x.status == old(x.status) && x.completed == old(x.completed)
      ensures old(Agree()) ==> Agree()
    {
      if old(Agree()) {
        forall x | x in fates ensures Marked(x) {
          assert old(Marked(x));
        }
      }
    }

    /** One turn of the loop of the cancelling calls, at the k-th pending event. */
    method CancelOrPass(current: Event, which: Choice, ghost k: nat) returns (next: Event)
      requires WellFormed() && Sorted(nodes) && k < |nodes| && nodes[k] == current
      modifies this`count, this`nodes, this`fates, fates.Keys`prev, fates.Keys`next, head`prev, head`next,
        current`status, current`completed
      ensures WellFormed() && Sorted(nodes)
      ensures nodes == old(nodes[..k]) + Passed(which, current) + old(nodes[k + 1..])
      ensures fates == if Chosen(which, current) then old(fates)[current := Dropped] else old(fates)
      ensures if Chosen(which, current) then current.status == Cancelled && current.completed
        else current.status == old(current.status) && current.completed == old(current.completed)
      ensures next == NodeAt(if Chosen(which, current) then k else k + 1)
    {
      Neighbours(k);
      next := current;
      if Chosen(which, current) {
        next := current.prev;
        Cancel(current, k);
        Neighbours(k);
      } else {
        Neighbours(k + 1);
      }
      next := next.next;
    }

    /** Half way through a cancelling call: i events have been looked at, k of them kept. */
    ghost predicate Cancelling(before: seq<Event>, was: map<Event, Fate>, which: Choice, i: nat, k: nat)
      reads this, head`prev, head`next, nodes`prev, nodes`next, nodes`priority, before`status, before`completed
    {
      && WellFormed() && Sorted(nodes) && Scanned(nodes, before, i, k, which)
      && i <= |before| && AllCancelled(before, which, i)
      && FatesCancelled(was, fates, before, which)
    }

    /** Of the first n events the chosen ones have been cancelled. */
    ghost predicate AllCancelled(before: seq<Event>, which: Choice, n: nat)
      requires n <= |before|
      reads this`fates, before`status, before`completed
    {
      forall j {:trigger CancelledNow(before[j])} :: 0 <= j < n && Chosen(which, before[j]) ==> CancelledNow(before[j])
    }

    ghost predicate CancelledNow(e: Event)
      reads this`fates, e`status, e`completed
    {
      e in fates && fates[e] == Dropped && e.status == Cancelled && e.completed
    }

    /** The events that are not chosen keep their status. */
    twostate predicate OthersKept(which: Choice, before: seq<Event>)
      reads before`status, before`completed
    {
      forall j {:trigger before[j]} :: 0 <= j < |before| && !Chosen(which, before[j]) ==>
        before[j].status == old(before[j].status) && before[j].completed == old(before[j].completed)
    }

    /** The same turn: the events cancelled before stay cancelled, and the one at hand joins them if it is
        chosen. */
    method CancelMarked(current: Event, which: Choice, ghost before: seq<Event>, ghost i: nat,
            ghost k: nat) returns (next: Event)
      requires WellFormed() && Sorted(nodes) && k < |nodes| && nodes[k] == current
      requires i < |before| && before[i] == current && AllCancelled(before, which, i)
      modifies this`count, this`nodes, this`fates, fates.Keys`prev, fates.Keys`next, head`prev, head`next,
        current`status, current`completed
      ensures WellFormed() && Sorted(nodes) && AllCancelled(before, which, i + 1)
      ensures nodes == old(nodes[..k]) + Passed(which, current) + old(nodes[k + 1..])
      ensures fates == if Chosen(which, current) then old(fates)[current := Dropped] else old(fates)
      ensures next == NodeAt(if Chosen(which, current) then k else k + 1)
      ensures OthersKept(which, before)
    {
      next := CancelOrPass(current, which, k);
      forall j | 0 <= j < i + 1 && Chosen(which, before[j]) ensures CancelledNow(before[j]) {
        if j < i {
          assert old(CancelledNow(before[j]));
          assert before[j] != current ==>
            before[j].status == old(before[j].status) && before[j].completed == old(before[j].completed);
        }
      }
    }

    lemma AtHand(before: seq<Event>, was: map<Event, Fate>, which: Choice, i: nat, k: nat)
      requires Cancelling(before, was, which, i, k) && NodeAt(k) != head
      ensures i < |before| && k < |nodes| && NodeAt(k) == nodes[k] == before[i] && nodes[k] in fates
    {
    }

    method CancelNext(current: Event, which: Choice, ghost before: seq<Event>, ghost was: map<Event, Fate>,
                      ghost i: nat, ghost k: nat)
      returns (next: Event, ghost kept: nat)
      requires Cancelling(before, was, which, i, k) && current == NodeAt(k) != head
      modifies this`count, this`nodes, this`fates, fates.Keys`prev, fates.Keys`next, head`prev, head`next,
        current`status, current`completed
      ensures i < |before| && Cancelling(before, was, which, i + 1, kept) && next == NodeAt(kept)
      ensures OthersKept(which, before)
    {
      ghost var u, f := nodes, fates;
      AtHand(before, was, which, i, k);
      next := CancelMarked(current, which, before, i, k);
      kept := k + |Passed(which, current)|;
      assert Scanned(nodes, before, i + 1, kept, which) by {
        ScanMoved(u, nodes, before, i, k, which);
      }
      assert FatesCancelled(was, fates, before, which) by {
        FatesCancel(was, f, before, which, current);
      }
    }

    /** The loop of the cancelling calls. */
    method CancelLoop(which: Choice, ghost before: seq<Event>, ghost was: map<Event, Fate>)
      requires Cancelling(before, was, which, 0, 0) && before == nodes
      modifies this`count, this`nodes, this`fates, fates.Keys`prev, fates.Keys`next, nodes`status, nodes`completed,
        head`prev, head`next
      ensures Cancelling(before, was, which, |before|, |nodes|)
      ensures OthersKept(which, before)
    {
      ghost var i: nat, k: nat := 0, 0;
      Neighbours(0);
      var current := head.next;
      while current != head
        invariant Cancelling(before, was, which, i, k) && current == NodeAt(k)
        invariant OthersKept(which, before)
        decreases |before| - i
      {
        assert current in fates && fates.Keys == old(fates.Keys);
        current, k := CancelNext(current, which, before, was, i, k);
        i := i + 1;
      }
      Neighbours(k);
    }

    /** What a cancelling call leaves behind: exactly the chosen ones among the pending events are gone
        from the list, dropped and marked as cancelled and completed. */
    ghost predicate Swept(which: Choice, before: seq<Event>, was: map<Event, Fate>)
      reads this, head`prev, head`next, nodes`prev, nodes`next, nodes`priority, before`status, before`completed
    {
      && Valid() && nodes == Rejected(before, |before|, which)
      && (forall j :: 0 <= j < |before| && Chosen(which, before[j]) ==> CancelledNow(before[j]))
      && fates.Keys == was.Keys
      && (forall e :: e in fates ==> fates[e] == if e in before && Chosen(which, e) then Dropped else was[e])
    }

    method CancelChosen(which: Choice)
      requires Valid()
      modifies this`count, this`nodes, this`fates, fates.Keys`prev, fates.Keys`next, nodes`status, nodes`completed,
        head`prev, head`next
      ensures Swept(which, old(nodes), old(fates)) && OthersKept(which, old(nodes))
      ensures old(Agree()) ==> Agree()
    {
      ghost var before, was := nodes, fates;
      CancelLoop(which, before, was);
      ScanEnds(nodes, before, |before|, |nodes|, which);
      forall e | e in fates ensures fates[e] == if e in before && Chosen(which, e) then Dropped else was[e] {
        if j :| 0 <= j < |before| && before[j] == e && Chosen(which, e) {
          assert CancelledNow(before[j]);
        }
      }
      if old(Agree()) {
        forall e | e in fates ensures Marked(e) {
          assert old(Marked(e));
          if j :| 0 <= j < |before| && before[j] == e {
            assert Chosen(which, e) ==> CancelledNow(before[j]);
          }
        }
      }
    }

    method CancelAllPendingCallbacks(sender: int)
      requires Valid()
      modifies this`count, this`nodes, this`fates, fates.Keys`prev, fates.Keys`next, nodes`status, nodes`completed,
        head`prev, head`next
      ensures Swept(OfSender(sender), old(nodes), old(fates)) && OthersKept(OfSender(sender), old(nodes))
      ensures old(Agree()) ==> Agree()
    {
      CancelChosen(OfSender(sender));
    }

    method CancelPendingCallback(sender: int, id: int)
      requires Valid()
      modifies this`count, this`nodes, this`fates, fates.Keys`prev, fates.Keys`next, nodes`status, nodes`completed,
        head`prev, head`next
      ensures Swept(OfId(sender, id), old(nodes), old(fates)) && OthersKept(OfId(sender, id), old(nodes))
      ensures old(Agree()) ==> Agree()
    {
      CancelChosen(OfId(sender, id));
    }

    /** CancelCallbackEvents, up to its wait for the running events. */
    method CancelCallbackEvents(sender: int, id: int, handlerThis: int, handlerFunc: int)
      requires Valid()
      modifies this`count, this`nodes, this`fates, fates.Keys`prev, fates.Keys`next, nodes`status, nodes`completed,
        head`prev, head`next
      ensures Swept(OfHandler(sender, id, handlerThis, handlerFunc), old(nodes), old(fates))
      ensures OthersKept(OfHandler(sender, id, handlerThis, handlerFunc), old(nodes))
      ensures old(Agree()) ==> Agree()
    {
      CancelChosen(OfHandler(sender, id, handlerThis, handlerFunc));
    }

    method CancelAllCallbackEvents()
      requires Valid()
      modifies this`count, this`nodes, this`fates, fates.Keys`prev, fates.Keys`next, nodes`status, nodes`completed,
        head`prev, head`next
      ensures Valid() && nodes == [] && fates.Keys == old(fates).Keys
      ensures forall e :: e in fates ==> fates[e] == if old(fates)[e] == Pending then Dropped else old(fates)[e]
      ensures forall j :: 0 <= j < |old(nodes)| ==> CancelledNow(old(nodes)[j])
      ensures old(Agree()) ==> Agree()
    {
      Neighbours(0);
      while head.next != head
        invariant Emptying(old(nodes), old(fates)) && head.next == NodeAt(0)
        invariant old(Agree()) ==> Agree()
        decreases |nodes|
      {
        CancelFirst(old(nodes), old(fates));
      }
      Neighbours(0);
    }

    /** Some of the pending events have been cancelled, and nothing else has happened. */
    ghost predicate Emptying(before: seq<Event>, was: map<Event, Fate>)
      reads this, head`prev, head`next, nodes`prev, nodes`next, nodes`priority, before`status, before`completed
    {
      && Valid() && fates.Keys == was.Keys
      && (forall e :: e in fates ==> fates[e] == was[e] || (was[e] == Pending && fates[e] == Dropped))
      && (forall e :: e in nodes ==> e in before)
      && (forall j :: 0 <= j < |before| ==> before[j] in nodes || CancelledNow(before[j]))
    }

    method CancelFirst(ghost before: seq<Event>, ghost was: map<Event, Fate>)
      requires Emptying(before, was) && head.next == NodeAt(0) != head
      modifies this`count, this`nodes, this`fates, fates.Keys`prev, fates.Keys`next, head`prev, head`next,
        before`status, before`completed
      ensures Emptying(before, was) && head.next == NodeAt(0) && |nodes| < |old(nodes)|
      ensures old(Agree()) ==> Agree()
    {
      ghost var first := nodes[0];
      assert first in nodes && first in before;
      Cancel(head.next, 0);
      forall j | 0 <= j < |before| ensures before[j] in nodes || CancelledNow(before[j]) {
        if before[j] != first {
          assert old(before[j] in nodes || CancelledNow(before[j]));
        }
      }
      Neighbours(0);
    }

    // ---- Dequeuing -------------------------------------------------------------------------

    /** The dequeue step of HandleCallbackEvents: the first event, if it is due. */
    method Dequeue(now: int) returns (e: Option<Event>)
      requires Valid()
      modifies this`count, this`nodes, this`fates, fates.Keys`prev, fates.Keys`next, head`prev, head`next
      ensures Valid()
      ensures e.None? <==> old(nodes) == [] || now < old(nodes)[0].dueAt
      ensures e.None? ==> nodes == old(nodes) && fates == old(fates)
      ensures e.Some? ==> old(nodes) == [e.value] + nodes && fates == old(fates)[e.value := Current]
      ensures old(Agree()) ==> Agree()
    {
      Neighbours(0);
      if head.next == head || now < head.next.dueAt {
        return None;
      }
      var first := head.next;
      TakeOut(first, Current, 0);
      if old(Agree()) {
        assert old(Marked(first));
        MarkedAnew(first);
      }
      e := Some(first);
    }

    /** The handling step up to the call of the handler: whether it is called at all. It is not without a
        handler, when the object it belongs to is gone, or when the sender that waited has given up. */
    method Begin(e: Event, alive: bool) returns (called: bool)
      requires Valid() && e in fates && fates[e] == Current
      modifies this`fates, e`status, e`completed
      ensures Valid() && nodes == old(nodes) && fates == old(fates)[e := if called then Handling else Done]
      ensures called <==> e.handlerFunc != 0 && alive && !(e.sync && old(e.status) == Cancelled)
      ensures e.status == if called && e.sync then Running else old(e.status)
      ensures e.completed <==> old(e.completed) || (e.handlerFunc != 0 && alive && !called)
      ensures old(Agree()) ==> Agree() && (called <==> e.handlerFunc != 0 && alive && !(e.sync && e in abandoned))
    {
      if e.handlerFunc == 0 || !alive {
        fates := fates[e := Done];
        return false;
      }
      if e.sync {
        if e.status == Cancelled {
          e.completed := true;
          fates := fates[e := Done];
          return false;
        }
        e.status := Running;
      }
      fates := fates[e := Handling];
      called := true;
    }

    /** The handling step after the handler has returned. */
    method End(e: Event)
      requires Valid() && e in fates && fates[e] == Handling
      modifies this`fates, e`status, e`completed
      ensures Valid() && nodes == old(nodes) && fates == old(fates)[e := Done]
      ensures if e.sync then e.status == Completed && e.completed
        else e.status == old(e.status) && e.completed == old(e.completed)
      ensures old(Agree()) ==> Agree()
    {
      if e.sync {
        e.status := Completed;
        e.completed := true;
      }
      fates := fates[e := Done];
    }

    /** SendCallbackEvent, when its wait ends by a timeout or an interruption: the event, wherever it is by
        then, is marked. */
    method GiveUp(e: Event)
      requires Valid() && e in fates
      modifies this`abandoned, e`status
      ensures Valid() && abandoned == old(abandoned) + {e} && e.status == Cancelled
      ensures old(Agree()) ==> Agree()
    {
      e.status := Cancelled;
      abandoned := abandoned + {e};
    }

    // ---- Posting ---------------------------------------------------------------------------

    /** The second loop of PostCallbackEvent: from the back, the first event that may stand before e. */
    method FindPlace(e: Event) returns (prev: Event, ghost k: nat)
      requires WellFormed()
      ensures Belongs(nodes, k, e) && prev == NodeBefore(k)
    {
      k := |nodes|;
      Neighbours(k);
      prev := head.prev;
      while prev != head
        invariant k <= |nodes| && prev == NodeBefore(k) && AllAfter(nodes, k, e)
        decreases k
      {
        Neighbours(k);
        if prev.priority < e.priority || (prev.priority == e.priority && prev.dueAt <= e.dueAt) {
          return;
        }
        k := k - 1;
        Neighbours(k);
        prev := prev.prev;
      }
      Neighbours(k);
    }

    method InsertSorted(e: Event) returns (ghost k: nat)
      requires Valid() && e !in nodes && e != head
      modifies this`count, this`nodes, this`fates, fates.Keys`prev, fates.Keys`next, head`prev, head`next, e`prev, e`next
      ensures Valid() && k <= |old(nodes)| && Belongs(old(nodes), k, e) && nodes == Spliced(old(nodes), k, e)
              && fates == old(fates)[e := Pending]
    {
      var prev;
      prev, k := FindPlace(e);
      SortedWith(nodes, k, e);
      Link(prev, e, k);
    }

    /** Half way through the first loop of PostCallbackEvent. */
    ghost predicate Coalescing(before: seq<Event>, was: map<Event, Fate>, e: Event, says: Verdicts, k: nat,
            highest: nat)
      reads this, head`prev, head`next, nodes`prev, nodes`next, nodes`priority, before`priority, e`priority
    {
      && WellFormed() && Sorted(nodes) && ScannedBack(nodes, before, k, e, says)
      && NoDrops(before, k, e, says) && highest == Urgency(before, k, e, says)
      && FatesChange(was, fates, before, e, says)
    }

    /** One turn of it, at the event before the k-th. */
    method CoalesceNext(e: Event, prev: Event, says: Verdicts, highest: nat, ghost before: seq<Event>,
            ghost was: map<Event, Fate>, ghost k: nat)
      returns (next: Event, high: nat, dropped: bool)
      requires Coalescing(before, was, e, says, k, highest) && prev == NodeBefore(k) != head
      modifies this`count, this`nodes, this`fates, fates.Keys`prev, fates.Keys`next, head`prev, head`next
      ensures k > 0
      ensures !dropped ==> Coalescing(before, was, e, says, k - 1, high) && next == NodeBefore(k - 1)
      ensures dropped ==> DroppedAt(before, was, e, says, k - 1)
    {
      Neighbours(k);
      Neighbours(k - 1);
      next, high, dropped := prev.prev, highest, false;
      assert prev == before[k - 1];
      if SameKey(e, prev) {
        if e.coalesces && prev in says.both {
          DropPair(e, prev, says, before, was, k);
          dropped := true;
          return;
        }
        if !e.coalesces || prev in says.merge {
          high := prev.priority;
          next := MergeOne(e, prev, says, before, was, k);
          return;
        }
      }
      ScanPassed(nodes, before, k, e, says);
    }

    /** An older event gives way to e. */
    method MergeOne(e: Event, prev: Event, says: Verdicts, ghost before: seq<Event>,
            ghost was: map<Event, Fate>, ghost k: nat)
      returns (next: Event)
      requires WellFormed() && Sorted(nodes) && ScannedBack(nodes, before, k, e, says)
               && FatesChange(was, fates, before, e, says)
      requires k > 0 && prev == before[k - 1] && Merges(e, prev, says)
      modifies this`count, this`nodes, this`fates, fates.Keys`prev, fates.Keys`next, head`prev, head`next
      ensures WellFormed() && Sorted(nodes) && ScannedBack(nodes, before, k - 1, e, says)
              && FatesChange(was, fates, before, e, says)
      ensures next == NodeBefore(k - 1)
    {
      ScanRemoved(nodes, before, k, e, says);
      FatesMerged(was, fates, before, e, says, prev);
      next := UnlinkAndBack(prev, k - 1);
    }

    /** Detach the k-th event, and go on to the one before it. */
    method UnlinkAndBack(e: Event, ghost k: nat) returns (next: Event)
      requires Valid() && k < |nodes| && nodes[k] == e
      modifies this`count, this`nodes, this`fates, fates.Keys`prev, fates.Keys`next, head`prev, head`next
      ensures Valid() && nodes == Cut(old(nodes), k) && fates == old(fates)[e := Coalesced]
      ensures next == NodeBefore(k)
    {
      Neighbours(k + 1);
      next := e.next;
      TakeOut(e, Coalesced, k);
      Neighbours(k);
      next := next.prev;
    }

    /** The scan has met the d-th event, which cancels itself and e. */
    ghost predicate DroppedAt(before: seq<Event>, was: map<Event, Fate>, e: Event, says: Verdicts, d: nat)
      reads this, head`prev, head`next, nodes`prev, nodes`next, nodes`priority
    {
      && WellFormed() && Sorted(nodes) && d < |before| && Drops(e, before[d], says) && NoDrops(before, d + 1, e, says)
      && nodes == before[..d] + Kept(before, d + 1, e, says)
      && FatesDropped(was, fates, before, e, says, before[d])
    }

    /** An older event and e cancel each other. */
    method DropPair(e: Event, prev: Event, says: Verdicts, ghost before: seq<Event>,
            ghost was: map<Event, Fate>, ghost k: nat)
      requires WellFormed() && Sorted(nodes) && ScannedBack(nodes, before, k, e, says) && NoDrops(before, k, e, says)
               && FatesChange(was, fates, before, e, says)
      requires k > 0 && prev == before[k - 1] && Drops(e, prev, says)
      modifies this`count, this`nodes, this`fates, fates.Keys`prev, fates.Keys`next, head`prev, head`next
      ensures DroppedAt(before, was, e, says, k - 1)
    {
      ScanCut(nodes, before, k, e, says);
      FatesDrop(was, fates, before, e, says, prev);
      TakeOut(prev, Coalesced, k - 1);
    }

    /** The first loop of PostCallbackEvent: from the back, drop what e replaces. */
    method Coalesce(e: Event, says: Verdicts) returns (highest: nat, dropped: bool, ghost d: nat)
      requires Valid()
      modifies this`count, this`nodes, this`fates, fates.Keys`prev, fates.Keys`next, head`prev, head`next
      ensures !dropped ==>
        Valid() && nodes == Kept(old(nodes), 0, e, says) && FatesChange(old(fates), fates, old(nodes), e, says)
      ensures !dropped ==> NoDrops(old(nodes), 0, e, says) && highest == old(Urgency(nodes, 0, e, says))
      ensures dropped ==> DroppedAt(old(nodes), old(fates), e, says, d)
    {
      highest, dropped, d := CoalesceLoop(e, says, nodes, fates);
      if !dropped {
        ScanAll(nodes, old(nodes), e, says);
      }
    }

    method CoalesceLoop(e: Event, says: Verdicts, ghost before: seq<Event>, ghost was: map<Event, Fate>)
      returns (highest: nat, dropped: bool, ghost d: nat)
      requires Valid() && before == nodes && was == fates
      modifies this`count, this`nodes, this`fates, fates.Keys`prev, fates.Keys`next, head`prev, head`next
      ensures !dropped ==> Coalescing(before, was, e, says, 0, highest)
      ensures dropped ==> DroppedAt(before, was, e, says, d)
    {
      d := |nodes|;
      highest, dropped := e.priority, false;
      BackFacts(nodes, before, d, d, e, says);
      Neighbours(d);
      var prev := head.prev;
      while prev != head
        invariant Coalescing(before, was, e, says, d, highest) && prev == NodeBefore(d)
        decreases d
      {
        prev, highest, dropped := CoalesceNext(e, prev, says, highest, before, was, d);
        d := d - 1;
        if dropped {
          return;
        }
      }
      Neighbours(d);
    }

    /** What posting a duplicated event does when nothing cancels it. */
    ghost predicate Replaced(before: seq<Event>, kept: seq<Event>, was: map<Event, Fate>, e: Event,
            says: Verdicts, k: nat)
      reads this, kept`priority, e`priority
    {
      && NoDrops(before, 0, e, says) && kept == Kept(before, 0, e, says)
      && k <= |kept| && Belongs(kept, k, e) && nodes == Spliced(kept, k, e)
      && e in fates && fates[e] == Pending && FatesChange(was, fates - {e}, before, e, says)
    }

    /** The event takes the place of the most urgent event it replaces. */
    method InsertAtPriority(e: Event, highest: nat) returns (ghost k: nat)
      requires Valid() && e !in fates && e != head
      modifies this`count, this`nodes, this`fates, fates.Keys`prev, fates.Keys`next, head`prev, head`next, e`prev,
        e`next, e`priority
      ensures Valid() && k <= |old(nodes)| && Belongs(old(nodes), k, e) && nodes == Spliced(old(nodes), k, e)
      ensures fates == old(fates)[e := Pending] && e.priority == Least(old(e.priority), highest)
    {
      assert e !in nodes;
      if e.priority > highest {
        e.priority := highest;
      }
      k := InsertSorted(e);
    }

    /** e has been put behind the k-th event. */
    ghost predicate Queued(before: seq<Event>, was: map<Event, Fate>, e: Event, k: nat)
      reads this, before`priority, e`priority
    {
      k <= |before| && Belongs(before, k, e) && nodes == Spliced(before, k, e) && fates == was[e := Pending]
    }

    /** e and the k-th event have cancelled each other; what e replaced behind that event is gone too. */
    ghost predicate BothGone(before: seq<Event>, was: map<Event, Fate>, e: Event, says: Verdicts, k: nat)
      reads this
    {
      && e in fates && fates[e] == Coalesced && k < |before| && Drops(e, before[k], says) &&
        NoDrops(before, k + 1, e, says)
      && nodes == before[..k] + Kept(before, k + 1, e, says)
      && FatesDropped(was, fates - {e}, before, e, says, before[k])
    }

    /** What becomes of the others when e is posted. */
    twostate lemma MarkedPosted(e: Event)
      requires OthersCoalesced(old(fates), fates, e) && e !in old(fates) && e in fates
      requires abandoned == old(abandoned) && (fates[e] == Pending || fates[e] == Coalesced)
      requires forall x :: x in old(fates) ==> x.status == old(x.status) && x.completed == old(x.completed)
      ensures old(Agree()) && e.status == Created && !e.completed && e !in abandoned ==> Agree()
    {
      if old(Agree()) {
        forall x | x in old(fates) ensures Marked(x) {
          assert old(Marked(x));
        }
      }
    }

    /** PostCallbackEvent; the handling thread is woken when notify is returned. */
    method Post(e: Event, says: Verdicts) returns (notify: bool, dropped: bool, ghost k: nat)
      requires Valid() && e !in fates && e != head
      modifies this`count, this`nodes, this`fates, fates.Keys`prev, fates.Keys`next, head`prev, head`next, e`prev,
        e`next, e`priority, e`status, e`completed
      ensures Valid()
      ensures finishing ==>
        nodes == old(nodes) && fates == old(fates)[e := Dropped] && e.status == Cancelled && e.completed && !notify
      ensures !finishing && !e.duplicated ==> !dropped && Queued(old(nodes), old(fates), e, k)
      ensures !finishing && e.duplicated && !dropped ==>
        Replaced(old(nodes), Kept(old(nodes), 0, e, says), old(fates), e, says, k)
      ensures !finishing && !dropped ==>
                e.priority == (if e.duplicated then Least(old(e.priority), old(Urgency(nodes, 0, e, says)))
                  else old(e.priority)) && notify == (old(nodes) == [])
      ensures !finishing && e.duplicated && dropped ==> BothGone(old(nodes), old(fates), e, says, k) && !notify
      ensures !finishing ==> e.status == old(e.status) && e.completed == old(e.completed)
      ensures old(Agree()) && old(e.status) == Created && !old(e.completed) && e !in abandoned ==> Agree()
    {
      notify, k, dropped := false, 0, false;
      if finishing {
        Refuse(e);
        return;
      }
      Neighbours(0);
      notify := head.next == head;
      if e.duplicated {
        k, dropped := PostOverOthers(e, says);
        notify := notify && !dropped;
      } else {
        k := InsertNew(e);
      }
    }

    method InsertNew(e: Event) returns (ghost k: nat)
      requires Valid() && e !in fates && e != head
      modifies this`count, this`nodes, this`fates, fates.Keys`prev, fates.Keys`next, head`prev, head`next, e`prev, e`next
      ensures Valid() && Queued(old(nodes), old(fates), e, k)
      ensures old(Agree()) && e.status == Created && !e.completed && e !in abandoned ==> Agree()
    {
      assert e !in nodes;
      k := InsertSorted(e);
      MarkedPosted(e);
    }

    /** The context is shutting down. */
    method Refuse(e: Event)
      requires Valid() && e !in fates && e != head
      modifies this`fates, e`status, e`completed
      ensures Valid() && fates == old(fates)[e := Dropped] && e.status == Cancelled && e.completed
      ensures old(Agree()) ==> Agree()
    {
      e.status := Cancelled;
      e.completed := true;
      fates := fates[e := Dropped];
      if old(Agree()) {
        forall x | x in fates ensures Marked(x) {
          assert x != e ==> old(Marked(x));
        }
      }
    }

    method PostOverOthers(e: Event, says: Verdicts) returns (ghost k: nat, dropped: bool)
      requires Valid() && e !in fates && e != head
      modifies this`count, this`nodes, this`fates, fates.Keys`prev, fates.Keys`next, head`prev, head`next, e`prev,
        e`next, e`priority
      ensures Valid()
      ensures !dropped ==> Replaced(old(nodes), Kept(old(nodes), 0, e, says), old(fates), e, says, k)
      ensures !dropped ==> e.priority == Least(old(e.priority), old(Urgency(nodes, 0, e, says)))
      ensures dropped ==> BothGone(old(nodes), old(fates), e, says, k)
      ensures old(Agree()) && e.status == Created && !e.completed && e !in abandoned ==> Agree()
    {
      k, dropped := PostDuplicated(e, says);
      MarkedPosted(e);
    }

    method PostDuplicated(e: Event, says: Verdicts) returns (ghost k: nat, dropped: bool)
      requires Valid() && e !in fates && e != head
      modifies this`count, this`nodes, this`fates, fates.Keys`prev, fates.Keys`next, head`prev, head`next, e`prev,
        e`next, e`priority
      ensures Valid() && OthersCoalesced(old(fates), fates, e)
      ensures !dropped ==> Replaced(old(nodes), Kept(old(nodes), 0, e, says), old(fates), e, says, k)
      ensures !dropped ==> e.priority == Least(old(e.priority), old(Urgency(nodes, 0, e, says)))
      ensures dropped ==> BothGone(old(nodes), old(fates), e, says, k)
    {
      var highest;
      highest, dropped, k := Coalesce(e, says);
      if dropped {
        ghost var others := fates;
        fates := fates[e := Coalesced];
        assert fates - {e} == others;
        DropCoalesces(old(fates), fates, old(nodes), e, says, old(nodes)[k]);
      } else {
        FatesPending(old(fates), fates, old(nodes), e, says);
        k := InsertAtPriority(e, highest);
        ChangeCoalesces(old(fates), fates, old(nodes), e, says);
      }
    }
  }

  // ---- What posting a duplicated event means -----------------------------------------------

  /** A cancelling call leaves exactly the events that it does not select. */
  lemma {:induction false} RejectedExactly(s: seq<Event>, n: nat, which: Choice, x: Event)
    requires n <= |s|
    ensures x in Rejected(s, n, which) <==> x in s[..n] && !Chosen(which, x)
  {
    if n > 0 {
      RejectedExactly(s, n - 1, which, x);
      assert s[..n] == s[..n - 1] + [s[n - 1]];
    }
  }

  /** What is kept is what is not replaced, and it stays in order. */
  lemma {:induction false} KeptExactly(s: seq<Event>, k: nat, e: Event, says: Verdicts, x: Event)
    requires k <= |s|
    ensures x in Kept(s, k, e, says) <==> x in s[k..] && !Merges(e, x, says)
    decreases |s| - k
  {
    if k < |s| {
      KeptExactly(s, k + 1, e, says, x);
      assert s[k..] == [s[k]] + s[k + 1..];
    }
  }

  lemma {:induction false} KeptInOrder(s: seq<Event>, k: nat, e: Event, says: Verdicts, i: nat, j: nat)
    returns (p: nat, q: nat)
    requires k <= |s| && i < j < |Kept(s, k, e, says)|
    ensures k <= p < q < |s| && s[p] == Kept(s, k, e, says)[i] && s[q] == Kept(s, k, e, says)[j]
    decreases |s| - k
  {
    var rest := Kept(s, k + 1, e, says);
    if Merges(e, s[k], says) {
      p, q := KeptInOrder(s, k + 1, e, says, i, j);
    } else if i > 0 {
      p, q := KeptInOrder(s, k + 1, e, says, i - 1, j - 1);
    } else {
      p := k;
      KeptExactly(s, k + 1, e, says, rest[j - 1]);
      var m :| 0 <= m < |s[k + 1..]| && s[k + 1..][m] == rest[j - 1];
      q := k + 1 + m;
    }
  }

  /** In a sorted queue the event replaced last is the most urgent one that is replaced. */
  lemma {:induction false} UrgencyIsLeast(s: seq<Event>, k: nat, e: Event, says: Verdicts)
    requires Sorted(s) && k <= |s|
    ensures forall i :: k <= i < |s| && Merges(e, s[i], says) ==> Urgency(s, k, e, says) <= s[i].priority
    ensures Urgency(s, k, e, says) == e.priority || exists i :: k <= i < |s| && Merges(e, s[i], says) && Urgency(s, k, e, says) == s[i].priority
    decreases |s| - k
  {
    SortedFacts(s, |s|);
    if k < |s| {
      UrgencyIsLeast(s, k + 1, e, says);
      forall i | k < i < |s| ensures s[k].priority <= s[i].priority {
        assert NotAfter(s[k], s[i]);
      }
    }
  }

  /** A duplicated event without a coalescing function replaces every pending event with its key: it
      is the only one left, and it is as urgent as the most urgent of them and itself. */
  lemma OnlyOneLeft(s: seq<Event>, k: nat, e: Event, says: Verdicts, queue: seq<Event>, priority: nat)
    requires Sorted(s) && e !in s && !e.coalesces && k <= |Kept(s, 0, e, says)|
    requires queue == Spliced(Kept(s, 0, e, says), k, e) && priority == Least(e.priority, Urgency(s, 0, e, says))
    ensures NoDrops(s, 0, e, says)
    ensures forall x :: x in queue && SameKey(e, x) ==> x == e
    ensures forall x :: x in queue <==> x == e || (x in s && !SameKey(e, x))
    ensures priority <= e.priority && forall x :: x in s && SameKey(e, x) ==> priority <= x.priority
    ensures priority == e.priority || exists x :: x in s && SameKey(e, x) && priority == x.priority
  {
    NeverDrops(s, 0, e, says);
    UrgencyIsLeast(s, 0, e, says);
    assert s[0..] == s;
    forall x ensures x in queue <==> x == e || (x in s && !SameKey(e, x)) {
      KeptExactly(s, 0, e, says, x);
      InSplice(Kept(s, 0, e, says), k, e, x);
    }
  }

  lemma InSplice(kept: seq<Event>, k: nat, e: Event, x: Event)
    requires k <= |kept|
    ensures x in Spliced(kept, k, e) <==> x == e || x in kept
  {
    assert kept == kept[..k] + kept[k..];
  }

  lemma {:induction false} NeverDrops(s: seq<Event>, k: nat, e: Event, says: Verdicts)
    requires !e.coalesces && k <= |s|
    ensures NoDrops(s, k, e, says)
    decreases |s| - k
  {
    if k < |s| {
      NeverDrops(s, k + 1, e, says);
    }
  }
}

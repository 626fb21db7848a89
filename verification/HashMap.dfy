/** hashmap.c: an open-addressing table with at most eight probes, doubled when an insertion finds
    no place, and the plain map it stands for. */
module HashMap {

  const INITIAL_SIZE := 256
  const MAX_CHAIN_LENGTH := 8

  type Key = string

  datatype Status = MapOk | MapMissing | MapOmem

  datatype Option<T> = None | Some(value: T)

  /** hashmap_element. The data are opaque pointers. */
  datatype Slot = Slot(inUse: bool, key: Key, data: int)

  const FREE := Slot(false, "", 0)

  /** The hash before it is reduced to the table size, a function of the key's bytes. */
  type Hash = Key -> nat

  /** The slot visited by probe number i: the home slot, then one further each time, wrapping. */
  function Probe(hash: Hash, key: Key, n: nat, i: nat): (p: nat)
    requires n > 0
    ensures p < n
  {
    if i == 0 then Home(hash, key, n) else Next(Probe(hash, key, n, i - 1), n)
  }

  /** hashmap_hash_int. */
  function Home(hash: Hash, key: Key, n: nat): (p: nat)
    requires n > 0
    ensures p < n
  {
    hash(key) % n
  }

  /** curr = (curr + 1) % m->table_size */
  function Next(curr: nat, n: nat): (p: nat)
    requires n > 0
    ensures p < n
  {
    (curr + 1) % n
  }

  /** The probes of a key lie side by side, the first where its hash says. */
  lemma {:induction false} ProbesAdjoin(hash: Hash, key: Key, n: nat, i: nat)
    requires n > 0
    ensures Probe(hash, key, n, i) == (hash(key) + i) % n
  {
    if i > 0 {
      ProbesAdjoin(hash, key, n, i - 1);
      NextOf(hash(key) + (i - 1), hash(key) + i, n);
    }
  }

  lemma NextOf(a: nat, b: nat, n: nat)
    requires n > 0 && b == a + 1
    ensures Next(a % n, n) == b % n
  {
    var q, r := a / n, a % n;
    if r + 1 < n {
      Remainder(r + 1, n, 0, r + 1);
      Remainder(b, n, q, r + 1);
    } else {
      Remainder(n, n, 1, 0);
      Remainder(b, n, q + 1, 0);
    }
  }

  lemma Remainder(x: nat, n: nat, q: nat, r: nat)
    requires n > 0 && r < n && x == q * n + r
    ensures x % n == r
  {
    Multiple(x / n - q, n);
  }

  lemma Multiple(d: int, n: int)
    requires n > 0
    ensures d == 0 || d * n >= n || d * n <= -n
  {
  }

  /** The slot that probe number i of the key visits holds the key. */
  predicate Holds(S: seq<Slot>, p: nat, key: Key) {
    p < |S| && S[p].inUse && S[p].key == key
  }

  /** hashmap_get's answer: the first probed slot that holds the key. Free slots do not stop it. */
  ghost function Lookup(hash: Hash, S: seq<Slot>, key: Key, i: nat): Option<int>
    requires |S| > 0 && i <= MAX_CHAIN_LENGTH
    decreases MAX_CHAIN_LENGTH - i
  {
    if i == MAX_CHAIN_LENGTH then None
    else
      var p := Probe(hash, key, |S|, i);
      if Holds(S, p, key) then Some(S[p].data) else Lookup(hash, S, key, i + 1)
  }

  ghost function Get(hash: Hash, S: seq<Slot>, key: Key): Option<int>
    requires |S| > 0
  {
    Lookup(hash, S, key, 0)
  }

  /** Probe number i finds no place: another key is there. */
  predicate Blocked(hash: Hash, S: seq<Slot>, key: Key, i: nat)
    requires |S| > 0
  {
    var s := S[Probe(hash, key, |S|, i)];
    s.inUse && s.key != key
  }

  /** The first i probes find no place. */
  ghost predicate BlockedBefore(hash: Hash, S: seq<Slot>, key: Key, i: nat)
    requires |S| > 0
  {
    forall j :: 0 <= j < i ==> Blocked(hash, S, key, j)
  }

  // ---- Invariants ----------------------------------------------------------------------

  ghost function Occupied(S: seq<Slot>): nat {
    if S == [] then 0 else Occupied(S[..|S| - 1]) + if S[|S| - 1].inUse then 1 else 0
  }

  lemma {:induction false} OccupiedUpdate(S: seq<Slot>, p: nat, s: Slot)
    requires p < |S|
    ensures Occupied(S[p := s]) == Occupied(S) - (if S[p].inUse then 1 else 0) + (if s.inUse then 1 else 0)
  {
    var S' := S[p := s];
    if p < |S| - 1 {
      OccupiedUpdate(S[..|S| - 1], p, s);
      assert S'[..|S| - 1] == S[..|S| - 1][p := s];
    } else {
      assert S'[..|S| - 1] == S[..|S| - 1];
    }
  }

  lemma {:induction false} AllFree(S: seq<Slot>)
    requires forall p :: 0 <= p < |S| ==> !S[p].inUse
    ensures Occupied(S) == 0
  {
    if S != [] {
      AllFree(S[..|S| - 1]);
    }
  }

  /** Slot p is one of the eight its key probes. */
  ghost predicate Placed(hash: Hash, S: seq<Slot>, p: nat)
    requires p < |S|
  {
    S[p].inUse ==> exists i: nat :: i < MAX_CHAIN_LENGTH && Probe(hash, S[p].key, |S|, i) == p
  }

  /** What every operation keeps, removals included. */
  ghost predicate Sound(hash: Hash, S: seq<Slot>, size: nat) {
    && |S| > 0
    && (forall p :: 0 <= p < |S| ==> Placed(hash, S, p))
    && Occupied(S) <= size <= |S| / 2
  }

  ghost predicate Unique(S: seq<Slot>) {
    forall p, q :: 0 <= p < q < |S| && S[p].inUse && S[q].inUse ==> S[p].key != S[q].key
  }

  /** The first i probes of the key meet occupied slots. */
  ghost predicate Run(hash: Hash, S: seq<Slot>, key: Key, i: nat)
    requires |S| > 0
  {
    forall j :: 0 <= j < i ==> S[Probe(hash, key, |S|, j)].inUse
  }

  /** The probes before a stored key's slot are occupied: no removal left a hole in its run. */
  ghost predicate Gapless(hash: Hash, S: seq<Slot>) {
    forall p :: 0 <= p < |S| && S[p].inUse ==> GaplessAt(hash, S, p)
  }

  ghost predicate GaplessAt(hash: Hash, S: seq<Slot>, p: nat)
    requires p < |S|
  {
    exists i: nat :: i < MAX_CHAIN_LENGTH && Probe(hash, S[p].key, |S|, i) == p && Run(hash, S, S[p].key, i)
  }

  /** The table stores exactly the pairs of m. */
  ghost predicate Stores(S: seq<Slot>, m: map<Key, int>) {
    && (forall p :: 0 <= p < |S| && S[p].inUse ==> S[p].key in m && m[S[p].key] == S[p].data)
    && (forall k :: k in m ==> exists p: nat :: Holds(S, p, k))
  }

  /** What puts and gets keep as long as nothing is removed: the table is the map m. */
  ghost predicate Exact(hash: Hash, S: seq<Slot>, m: map<Key, int>) {
    |S| > 0 && Unique(S) && Gapless(hash, S) && Stores(S, m)
  }

  // ---- Lookup --------------------------------------------------------------------------

  /** A key stored where it probes is found. */
  lemma {:induction false} LookupFinds(hash: Hash, S: seq<Slot>, key: Key, i: nat, j: nat)
    requires |S| > 0 && i <= j < MAX_CHAIN_LENGTH && Holds(S, Probe(hash, key, |S|, j), key)
    ensures Lookup(hash, S, key, i).Some?
    decreases MAX_CHAIN_LENGTH - i
  {
    if !Holds(S, Probe(hash, key, |S|, i), key) {
      LookupFinds(hash, S, key, i + 1, j);
    }
  }

  lemma {:induction false} LookupStored(hash: Hash, S: seq<Slot>, key: Key, i: nat)
    requires |S| > 0 && i <= MAX_CHAIN_LENGTH && Lookup(hash, S, key, i).Some?
    ensures exists p: nat :: Holds(S, p, key) && S[p].data == Lookup(hash, S, key, i).value
    decreases MAX_CHAIN_LENGTH - i
  {
    if !Holds(S, Probe(hash, key, |S|, i), key) {
      LookupStored(hash, S, key, i + 1);
    } else {
      assert S[Probe(hash, key, |S|, i)].data == Lookup(hash, S, key, i).value;
    }
  }

  /** In every reachable table, get answers exactly for the keys that are stored somewhere. */
  lemma GetFindsStored(hash: Hash, S: seq<Slot>, size: nat, key: Key)
    requires Sound(hash, S, size)
    ensures Get(hash, S, key).Some? <==> exists p: nat :: Holds(S, p, key)
  {
    if exists p: nat :: Holds(S, p, key) {
      var p: nat :| Holds(S, p, key);
      assert Placed(hash, S, p);
      var j: nat :| j < MAX_CHAIN_LENGTH && Probe(hash, key, |S|, j) == p;
      LookupFinds(hash, S, key, 0, j);
    }
    if Get(hash, S, key).Some? {
      LookupStored(hash, S, key, 0);
    }
  }

  /** A table that is exactly m answers as m does. */
  lemma GetIsMapLookup(hash: Hash, S: seq<Slot>, size: nat, m: map<Key, int>, key: Key)
    requires Sound(hash, S, size) && Exact(hash, S, m)
    ensures Get(hash, S, key) == if key in m then Some(m[key]) else None
  {
    GetFindsStored(hash, S, size, key);
    if Get(hash, S, key).Some? {
      LookupStored(hash, S, key, 0);
    }
  }

  /** Changing one slot that holds neither the key before nor after leaves its lookup alone. */
  lemma {:induction false} LookupUnaffected(hash: Hash, S: seq<Slot>, key: Key, p: nat, s: Slot, i: nat)
    requires p < |S| && i <= MAX_CHAIN_LENGTH
    requires !(S[p].inUse && S[p].key == key) && !(s.inUse && s.key == key)
    ensures Lookup(hash, S[p := s], key, i) == Lookup(hash, S, key, i)
    decreases MAX_CHAIN_LENGTH - i
  {
    if i < MAX_CHAIN_LENGTH {
      LookupUnaffected(hash, S, key, p, s, i + 1);
    }
  }

  lemma {:induction false} LookupAtTarget(hash: Hash, S: seq<Slot>, key: Key, data: int, i: nat, j: nat)
    requires |S| > 0 && j <= i < MAX_CHAIN_LENGTH && BlockedBefore(hash, S, key, i) && !Blocked(hash, S, key, i)
    ensures Lookup(hash, S[Probe(hash, key, |S|, i) := Slot(true, key, data)], key, j) == Some(data)
    decreases i - j
  {
    if j < i {
      assert Blocked(hash, S, key, j);
      LookupAtTarget(hash, S, key, data, i, j + 1);
    }
  }

  // ---- Writing one slot ----------------------------------------------------------------

  /** The table after the key went into its i-th probed slot. */
  ghost function Written(hash: Hash, S: seq<Slot>, key: Key, data: int, i: nat): seq<Slot>
    requires |S| > 0
  {
    S[Probe(hash, key, |S|, i) := Slot(true, key, data)]
  }

  /** i is the probe at which hashmap_hash stops. */
  ghost predicate IsTarget(hash: Hash, S: seq<Slot>, key: Key, i: nat)
    requires |S| > 0
  {
    i < MAX_CHAIN_LENGTH && BlockedBefore(hash, S, key, i) && !Blocked(hash, S, key, i)
  }

  lemma WriteKeepsSound(hash: Hash, S: seq<Slot>, size: nat, key: Key, data: int, i: nat)
    requires Sound(hash, S, size) && size < |S| / 2 && i < MAX_CHAIN_LENGTH
    ensures Sound(hash, Written(hash, S, key, data, i), size + 1)
  {
    var p := Probe(hash, key, |S|, i);
    var S' := Written(hash, S, key, data, i);
    OccupiedUpdate(S, p, Slot(true, key, data));
    forall q | 0 <= q < |S'| ensures Placed(hash, S', q) {
      assert Placed(hash, S, q);
    }
  }

  /** After a put, get returns the new value for its key and the old answer for every other key. */
  lemma WriteLookups(hash: Hash, S: seq<Slot>, key: Key, data: int, i: nat, k: Key)
    requires |S| > 0 && IsTarget(hash, S, key, i)
    ensures Get(hash, Written(hash, S, key, data, i), k) == if k == key then Some(data) else Get(hash, S, k)
  {
    if k == key {
      LookupAtTarget(hash, S, key, data, i, 0);
    } else {
      LookupUnaffected(hash, S, k, Probe(hash, key, |S|, i), Slot(true, key, data), 0);
    }
  }

  /** In an exact table a stored key is met before any free slot. */
  lemma TargetIsStored(hash: Hash, S: seq<Slot>, size: nat, key: Key, i: nat, q: nat)
    requires Sound(hash, S, size) && Unique(S) && Gapless(hash, S) && IsTarget(hash, S, key, i) && Holds(S, q, key)
    ensures Probe(hash, key, |S|, i) == q
  {
    assert GaplessAt(hash, S, q);
    var j: nat :| j < MAX_CHAIN_LENGTH && Probe(hash, key, |S|, j) == q && Run(hash, S, key, j);
    assert j < i ==> Blocked(hash, S, key, j);
    assert i < j ==> S[Probe(hash, key, |S|, i)].inUse;
  }

  lemma WriteKeepsExact(hash: Hash, S: seq<Slot>, size: nat, m: map<Key, int>, key: Key, data: int, i: nat)
    requires Sound(hash, S, size) && Exact(hash, S, m) && IsTarget(hash, S, key, i)
    ensures Exact(hash, Written(hash, S, key, data, i), m[key := data])
  {
    var p := Probe(hash, key, |S|, i);
    var S' := Written(hash, S, key, data, i);
    forall q | 0 <= q < |S| && q != p && S[q].inUse ensures S[q].key != key {
      if S[q].key == key {
        TargetIsStored(hash, S, size, key, i, q);
      }
    }
    forall q | 0 <= q < |S'| && S'[q].inUse ensures GaplessAt(hash, S', q) {
      WriteGapless(hash, S, key, data, i, q);
    }
    assert Holds(S', p, key);
    var m' := m[key := data];
    forall k | k in m' ensures exists q: nat :: Holds(S', q, k) {
      if k != key {
        var q: nat :| Holds(S, q, k);
        assert Holds(S', q, k);
      }
    }
  }

  lemma WriteGapless(hash: Hash, S: seq<Slot>, key: Key, data: int, i: nat, q: nat)
    requires |S| > 0 && Gapless(hash, S) && IsTarget(hash, S, key, i) && q < |S|
    requires Written(hash, S, key, data, i)[q].inUse
    ensures GaplessAt(hash, Written(hash, S, key, data, i), q)
  {
    var p := Probe(hash, key, |S|, i);
    var S' := Written(hash, S, key, data, i);
    if q == p {
      forall j | 0 <= j < i ensures S'[Probe(hash, key, |S'|, j)].inUse {
        assert Blocked(hash, S, key, j);
      }
      assert Run(hash, S', key, i);
    } else {
      assert GaplessAt(hash, S, q);
      var j: nat :| j < MAX_CHAIN_LENGTH && Probe(hash, S[q].key, |S|, j) == q && Run(hash, S, S[q].key, j);
      assert Run(hash, S', S'[q].key, j);
    }
  }

  // ---- Removals ------------------------------------------------------------------------

  /** The table after its slot p was blanked out. */
  ghost function Blanked(S: seq<Slot>, p: nat): seq<Slot>
    requires p < |S|
  {
    S[p := FREE]
  }

  lemma BlankKeepsSound(hash: Hash, S: seq<Slot>, size: nat, p: nat)
    requires Sound(hash, S, size) && p < |S| && S[p].inUse
    ensures size > 0 && Sound(hash, Blanked(S, p), size - 1)
  {
    OccupiedUpdate(S, p, FREE);
    assert Occupied(Blanked(S, p)) >= 0;
    forall q | 0 <= q < |S| ensures Placed(hash, Blanked(S, p), q) {
      assert Placed(hash, S, q);
    }
  }

  /** Removing from a table without duplicates leaves no duplicate, forgets the key and no other. */
  lemma BlankKeepsUnique(hash: Hash, S: seq<Slot>, size: nat, m: map<Key, int>, p: nat)
    requires Sound(hash, S, size) && Unique(S) && Stores(S, m) && p < |S| && S[p].inUse
    ensures Unique(Blanked(S, p)) && Stores(Blanked(S, p), m - {S[p].key})
  {
    var S' := Blanked(S, p);
    forall k | k in m - {S[p].key} ensures exists q: nat :: Holds(S', q, k) {
      var q: nat :| Holds(S, q, k);
      assert Holds(S', q, k);
    }
  }

  /** Where agreement with a map can be lost: a put on a table without duplicates makes one exactly
      when its key is stored but a free slot comes first in the key's probe order, which only an
      earlier removal can leave there. */
  lemma PutDuplicatesExactly(hash: Hash, S: seq<Slot>, key: Key, data: int, i: nat)
    requires |S| > 0 && Unique(S) && IsTarget(hash, S, key, i)
    ensures Unique(Written(hash, S, key, data, i)) <==>
      !((exists q: nat :: Holds(S, q, key)) && !S[Probe(hash, key, |S|, i)].inUse)
  {
    var p := Probe(hash, key, |S|, i);
    var S' := Written(hash, S, key, data, i);
    if exists q: nat :: Holds(S, q, key) {
      var q: nat :| Holds(S, q, key);
      if !S[p].inUse {
        assert Holds(S', q, key) && Holds(S', p, key) && p != q;
      }
    }
    if S[p].inUse || !exists q: nat :: Holds(S, q, key) {
      forall a, b | 0 <= a < b < |S'| && S'[a].inUse && S'[b].inUse ensures S'[a].key != S'[b].key {
        assert S[a].inUse && S[a].key == key ==> Holds(S, a, key);
        assert S[b].inUse && S[b].key == key ==> Holds(S, b, key);
      }
    }
  }

  // ---- Rehashing -----------------------------------------------------------------------

  /** Putting the slots of S one after the other into an empty map. */
  ghost function Replay(S: seq<Slot>): map<Key, int> {
    if S == [] then map[]
    else
      var m, s := Replay(S[..|S| - 1]), S[|S| - 1];
      if s.inUse then m[s.key := s.data] else m
  }

  lemma {:induction false} ReplayKeys(S: seq<Slot>)
    ensures forall k :: k in Replay(S) <==> exists p: nat :: Holds(S, p, k)
    ensures forall k :: k in Replay(S) ==> exists p: nat :: Holds(S, p, k) && S[p].data == Replay(S)[k]
  {
    if S != [] {
      var front, s := S[..|S| - 1], S[|S| - 1];
      ReplayKeys(front);
      forall k ensures k in Replay(S) <==> exists p: nat :: Holds(S, p, k) {
        if p: nat :| Holds(front, p, k) {
          assert Holds(S, p, k);
        }
        assert s.inUse && s.key == k ==> Holds(S, |S| - 1, k);
        if exists p: nat :: Holds(S, p, k) {
          var p: nat :| Holds(S, p, k);
          assert p < |S| - 1 ==> Holds(front, p, k);
        }
      }
      forall k | k in Replay(S) ensures exists p: nat :: Holds(S, p, k) && S[p].data == Replay(S)[k] {
        if s.inUse && s.key == k {
          assert Holds(S, |S| - 1, k) && S[|S| - 1].data == Replay(S)[k];
        } else {
          var p: nat :| Holds(front, p, k) && front[p].data == Replay(front)[k];
          assert Holds(S, p, k) && S[p].data == Replay(S)[k];
        }
      }
    }
  }

  /** Replaying an exact table gives its map back. */
  lemma ReplayExact(hash: Hash, S: seq<Slot>, m: map<Key, int>)
    requires Exact(hash, S, m)
    ensures Replay(S) == m
  {
    ReplayKeys(S);
    forall k | k in Replay(S) ensures k in m && m[k] == Replay(S)[k] {
      var p: nat :| Holds(S, p, k) && S[p].data == Replay(S)[k];
    }
  }

  // ---- Room for a key --------------------------------------------------------------------

  /** The table is not half full, and one of the key's eight probes meets a free slot or the key. */
  ghost predicate HasPlace(hash: Hash, S: seq<Slot>, size: nat, key: Key)
    requires |S| > 0
  {
    size < |S| / 2 && !BlockedBefore(hash, S, key, MAX_CHAIN_LENGTH)
  }

  /** The first such probe, of those from i on. */
  ghost function FirstPlace(hash: Hash, S: seq<Slot>, key: Key, i: nat): (t: nat)
    requires |S| > 0 && BlockedBefore(hash, S, key, i) && !BlockedBefore(hash, S, key, MAX_CHAIN_LENGTH)
    ensures IsTarget(hash, S, key, t)
    decreases MAX_CHAIN_LENGTH - i
  {
    if i < MAX_CHAIN_LENGTH && Blocked(hash, S, key, i) then FirstPlace(hash, S, key, i + 1) else i
  }

  lemma TargetIsFirst(hash: Hash, S: seq<Slot>, key: Key, i: nat)
    requires |S| > 0 && IsTarget(hash, S, key, i)
    ensures !BlockedBefore(hash, S, key, MAX_CHAIN_LENGTH) && FirstPlace(hash, S, key, 0) == i
  {
    var t := FirstPlace(hash, S, key, 0);
    assert !Blocked(hash, S, key, i) && !Blocked(hash, S, key, t);
  }

  /** The slots of S put one after the other into an empty table of n slots, as long as each finds a place. */
  ghost function Refilled(hash: Hash, S: seq<Slot>, n: nat): (t: Option<seq<Slot>>)
    requires n > 0
    ensures t.Some? ==> |t.value| == n
  {
    if S == [] then Some(seq(n, i => FREE))
    else
      var front, s := S[..|S| - 1], S[|S| - 1];
      var t := Refilled(hash, front, n);
      if t.None? || !s.inUse then t
      else if HasPlace(hash, t.value, Occupied(front), s.key)
      then Some(Written(hash, t.value, s.key, s.data, FirstPlace(hash, t.value, s.key, 0)))
      else None
  }

  lemma {:induction false} RefilledBefore(hash: Hash, S: seq<Slot>, n: nat, i: nat)
    requires n > 0 && i <= |S|
    ensures Refilled(hash, S, n).Some? ==> Refilled(hash, S[..i], n).Some?
  {
    if i < |S| {
      RefilledBefore(hash, S[..|S| - 1], n, i);
      assert S[..|S| - 1][..i] == S[..i];
    } else {
      assert S[..i] == S;
    }
  }

  /** Once the slots of S are in a table of twice the size, there is a place for the key. */
  ghost predicate DoublingHelps(hash: Hash, S: seq<Slot>, key: Key)
    requires |S| > 0
  {
    var refilled := Refilled(hash, S, 2 * |S|);
    refilled.Some? && HasPlace(hash, refilled.value, Occupied(S), key)
  }

  ghost predicate Stored(S: seq<Slot>, key: Key) {
    exists p: nat :: Holds(S, p, key)
  }

  ghost predicate KeysWithin(T: seq<Slot>, S: seq<Slot>) {
    forall k {:trigger Stored(T, k)} :: Stored(T, k) ==> Stored(S, k)
  }

  /** The table T has no place for one of the keys of S. */
  ghost predicate Starving(hash: Hash, T: seq<Slot>, size: nat, S: seq<Slot>)
    requires |T| > 0
  {
    exists k {:trigger Stored(S, k)} :: Stored(S, k) && !HasPlace(hash, T, size, k)
  }

  lemma StarvingWithin(hash: Hash, T: seq<Slot>, size: nat, S: seq<Slot>, S0: seq<Slot>)
    requires |T| > 0 && Starving(hash, T, size, S) && KeysWithin(S, S0)
    ensures Starving(hash, T, size, S0)
  {
    var k :| Stored(S, k) && !HasPlace(hash, T, size, k);
    assert Stored(S0, k);
  }

  lemma StarvingStill(hash: Hash, T: seq<Slot>, size: nat, key: Key, S: seq<Slot>, S0: seq<Slot>)
    requires |T| > 0 && Stored(S0, key) && KeysWithin(S, S0)
    requires !HasPlace(hash, T, size, key) || Starving(hash, T, size, S)
    ensures Starving(hash, T, size, S0)
  {
    if Starving(hash, T, size, S) {
      StarvingWithin(hash, T, size, S, S0);
    }
  }

  lemma KeysOn(T: seq<Slot>, S: seq<Slot>, S0: seq<Slot>)
    requires KeysWithin(T, S) && KeysWithin(S, S0)
    ensures KeysWithin(T, S0)
  {
  }

  /** The keys of a table that stands for the first i slots replayed are keys of these slots. */
  lemma ReplayedKeys(S: seq<Slot>, i: nat, T: seq<Slot>, m: map<Key, int>)
    requires i <= |S| && Stores(T, m) && Submap(m, Replay(S[..i]))
    ensures KeysWithin(T, S)
  {
    ReplayKeys(S[..i]);
    forall k | Stored(T, k) ensures Stored(S, k) {
      var q: nat :| Holds(S[..i], q, k);
      assert Holds(S, q, k);
    }
  }

  // ---- What a rehash does to a key stored twice ----------------------------------------

  /** The slot that hashmap_get stops at. */
  ghost function FirstCopy(hash: Hash, S: seq<Slot>, key: Key, i: nat): (p: nat)
    requires |S| > 0 && i <= MAX_CHAIN_LENGTH && Lookup(hash, S, key, i).Some?
    ensures Holds(S, p, key) && Lookup(hash, S, key, i) == Some(S[p].data)
    decreases MAX_CHAIN_LENGTH - i
  {
    var p := Probe(hash, key, |S|, i);
    if Holds(S, p, key) then p else FirstCopy(hash, S, key, i + 1)
  }

  /** The last slot in the order of the table that holds the key. */
  ghost predicate IsLastCopy(S: seq<Slot>, key: Key, p: nat) {
    Holds(S, p, key) && forall q: nat :: Holds(S, q, key) ==> q <= p
  }

  /** Replaying gives a key the data of its last copy. */
  lemma {:induction false} ReplayIsLast(S: seq<Slot>, key: Key) returns (p: nat)
    requires key in Replay(S)
    ensures IsLastCopy(S, key, p) && Replay(S)[key] == S[p].data
  {
    var front, s := S[..|S| - 1], S[|S| - 1];
    if s.inUse && s.key == key {
      p := |S| - 1;
    } else {
      p := ReplayIsLast(front, key);
      assert Holds(S, p, key);
      forall q: nat | Holds(S, q, key) ensures q <= p {
        assert Holds(front, q, key);
      }
    }
  }

  /** What get answers once the slots have been put into a fresh table. */
  ghost function AfterRehash(S: seq<Slot>, key: Key): Option<int> {
    if key in Replay(S) then Some(Replay(S)[key]) else None
  }

  /** A rehash changes get's answer for a key exactly when the copy that is probed first and the last one
      in the order of the table have different data; in particular those are then two copies. */
  lemma RehashKeepsExactly(hash: Hash, S: seq<Slot>, size: nat, key: Key)
    requires Sound(hash, S, size)
    ensures Get(hash, S, key).Some? <==> AfterRehash(S, key).Some?
    ensures AfterRehash(S, key) == Get(hash, S, key) <==>
      (forall last: nat :: Get(hash, S, key).Some? && IsLastCopy(S, key, last) ==>
        S[last].data == S[FirstCopy(hash, S, key, 0)].data)
  {
    GetFindsStored(hash, S, size, key);
    ReplayKeys(S);
    if key in Replay(S) {
      var p := ReplayIsLast(S, key);
    }
  }

  /** The slots after put(a), put(k), remove(a), put(k) for two keys with the same home slot. */
  ghost function PutAgain(hash: Hash, a: Key, k: Key, other: int, first: int, second: int): (S: seq<Slot>)
    requires a != k && Home(hash, a, INITIAL_SIZE) == Home(hash, k, INITIAL_SIZE)
    ensures |S| == INITIAL_SIZE && Sound(hash, S, 2)
    ensures Holds(S, Home(hash, k, INITIAL_SIZE), k) && S[Home(hash, k, INITIAL_SIZE)].data == second
    ensures var next := Next(Home(hash, k, INITIAL_SIZE), INITIAL_SIZE); Holds(S, next, k) && S[next].data == first
    ensures forall p: nat :: Holds(S, p, k) ==>
      p == Home(hash, k, INITIAL_SIZE) || p == Next(Home(hash, k, INITIAL_SIZE), INITIAL_SIZE)
  {
    var h := Home(hash, k, INITIAL_SIZE);
    var S0 := seq(INITIAL_SIZE, i => FREE);
    EmptyTable(hash, S0);
    assert Probe(hash, a, INITIAL_SIZE, 0) == Probe(hash, k, INITIAL_SIZE, 0) == h;
    assert Probe(hash, k, INITIAL_SIZE, 1) == Next(h, INITIAL_SIZE) != h;
    assert IsTarget(hash, S0, a, 0);
    WriteKeepsSound(hash, S0, 0, a, other, 0);
    var S1 := Written(hash, S0, a, other, 0);
    assert Blocked(hash, S1, k, 0) && IsTarget(hash, S1, k, 1);
    WriteKeepsSound(hash, S1, 1, k, first, 1);
    var S2 := Written(hash, S1, k, first, 1);
    assert Holds(S2, Probe(hash, a, INITIAL_SIZE, 0), a) && FirstCopy(hash, S2, a, 0) == h;
    BlankKeepsSound(hash, S2, 2, h);
    var S3 := Blanked(S2, FirstCopy(hash, S2, a, 0));
    assert IsTarget(hash, S3, k, 0);
    WriteKeepsSound(hash, S3, 1, k, second, 0);
    Written(hash, S3, k, second, 0)
  }

  /** Such a table answers with the new value and, after a rehash, with the old one, unless the second copy
      wrapped around to slot 0. */
  lemma StaleAfterRehash(hash: Hash, a: Key, k: Key, other: int, first: int, second: int)
    requires a != k && Home(hash, a, INITIAL_SIZE) == Home(hash, k, INITIAL_SIZE)
    ensures var S := PutAgain(hash, a, k, other, first, second);
            && Get(hash, S, k) == Some(second)
            && AfterRehash(S, k) == Some(if Home(hash, k, INITIAL_SIZE) < INITIAL_SIZE - 1 then first else second)
  {
    var S, h := PutAgain(hash, a, k, other, first, second), Home(hash, k, INITIAL_SIZE);
    assert Probe(hash, k, INITIAL_SIZE, 0) == h;
    ReplayKeys(S);
    var p := ReplayIsLast(S, k);
    assert Holds(S, h, k) && Holds(S, Next(h, INITIAL_SIZE), k);
  }

  lemma EmptyTable(hash: Hash, S: seq<Slot>)
    requires |S| > 0 && forall p :: 0 <= p < |S| ==> S[p] == FREE
    ensures Sound(hash, S, 0) && Exact(hash, S, map[])
  {
    AllFree(S);
  }

  ghost predicate Submap(m: map<Key, int>, n: map<Key, int>) {
    forall k :: k in m ==> k in n && m[k] == n[k]
  }

  class Map {
    const hash: Hash
    var tableSize: nat
    var size: nat
    var data: array<Slot>
    var budget: nat                      // how many further allocations succeed
    ghost var contents: map<Key, int>    // the plain map, while the table is one

    ghost predicate Valid()
      reads this, data
    {
      tableSize == data.Length && Sound(hash, data[..], size)
    }

    ghost predicate Faithful()
      reads this, data
    {
      Exact(hash, data[..], contents)
    }

    /** hashmap_new, when its allocations succeed. */
    constructor (hash: Hash, budget: nat)
      ensures Valid() && Faithful() && contents == map[] && fresh(data)
      ensures this.hash == hash && this.budget == budget && tableSize == INITIAL_SIZE
    {
      this.hash := hash;
      tableSize, size := INITIAL_SIZE, 0;
      data := new Slot[INITIAL_SIZE](_ => FREE);
      this.budget := budget;
      contents := map[];
      new;
      EmptyTable(hash, data[..]);
    }

    /** hashmap_hash: the slot for a key, or -1 for MAP_FULL. */
    method FindSlot(key: Key) returns (index: int, ghost i: nat)
      requires Valid()
      ensures index >= 0 ==>
        size < tableSize / 2 && IsTarget(hash, data[..], key, i) && index == Probe(hash, key, tableSize, i)
      ensures index >= 0 <==> HasPlace(hash, data[..], size, key)
    {
      i := 0;
      if size >= tableSize / 2 {
        return -1, i;
      }
      var curr := Home(hash, key, tableSize);
      var n := 0;
      while n < MAX_CHAIN_LENGTH
        invariant n <= MAX_CHAIN_LENGTH && curr == Probe(hash, key, tableSize, n)
        invariant BlockedBefore(hash, data[..], key, n)
      {
        if !data[curr].inUse || data[curr].key == key {
          return curr, n;
        }
        curr := Next(curr, tableSize);
        n := n + 1;
      }
      return -1, i;
    }

    /** hashmap_get. */
    method Find(key: Key) returns (status: Status, value: int)
      requires Valid()
      ensures status == (if Get(hash, data[..], key).Some? then MapOk else MapMissing)
      ensures status == MapOk ==> Get(hash, data[..], key) == Some(value)
      ensures Faithful() ==> (status == MapOk <==> key in contents) && (status == MapOk ==> value == contents[key])
    {
      status, value := Scan(key);
      if Faithful() {
        GetIsMapLookup(hash, data[..], size, contents, key);
      }
    }

    /** Its loop over the probes. */
    method Scan(key: Key) returns (status: Status, value: int)
      requires Valid()
      ensures status == (if Get(hash, data[..], key).Some? then MapOk else MapMissing)
      ensures status == MapOk ==> Get(hash, data[..], key) == Some(value)
    {
      var curr := Home(hash, key, tableSize);
      value := 0;
      var n := 0;
      while n < MAX_CHAIN_LENGTH
        invariant n <= MAX_CHAIN_LENGTH && curr == Probe(hash, key, tableSize, n)
        invariant Get(hash, data[..], key) == Lookup(hash, data[..], key, n)
      {
        if data[curr].inUse && data[curr].key == key {
          return MapOk, data[curr].data;
        }
        curr := Next(curr, tableSize);
        n := n + 1;
      }
      return MapMissing, 0;
    }

    /** The end of hashmap_put: write the slot and count. */
    method Write(key: Key, value: int, index: nat, ghost i: nat)
      requires Valid() && size < tableSize / 2
      requires IsTarget(hash, data[..], key, i) && index == Probe(hash, key, tableSize, i)
      modifies this`size, this`contents, data
      ensures Valid() && data[..] == Written(hash, old(data[..]), key, value, i) && size == old(size) + 1
      ensures contents == old(contents)[key := value]
      ensures old(Faithful()) ==> Faithful()
      ensures forall k :: Get(hash, data[..], k) == if k == key then Some(value) else Get(hash, old(data[..]), k)
    {
      ghost var S := data[..];
      WriteKeepsSound(hash, S, size, key, value, i);
      if Faithful() {
        WriteKeepsExact(hash, S, size, contents, key, value, i);
      }
      forall k ensures Get(hash, Written(hash, S, key, value, i), k) == if k == key then Some(value)
        else Get(hash, S, k) {
        WriteLookups(hash, S, key, value, i, k);
      }
      data[index] := Slot(true, key, value);
      assert data[..] == Written(hash, S, key, value, i);
      size := size + 1;
      contents := contents[key := value];
    }

    /** hashmap_put. */
    method Put(key: Key, value: int) returns (status: Status)
      requires Valid()
      modifies this, data
      ensures Valid() && (data == old(data) || fresh(data)) && budget <= old(budget)
      ensures status == MapOk || (status == MapOmem && budget == 0)
      ensures status == MapOk ==> Get(hash, data[..], key) == Some(value)
      ensures tableSize >= old(tableSize)
      ensures status == MapOk && budget == old(budget) ==>
        data == old(data) && forall k :: k != key ==> Get(hash, data[..], k) == Get(hash, old(data[..]), k)
      ensures old(Faithful()) ==> Faithful()
      ensures old(Faithful()) && status == MapOk ==> contents == old(contents)[key := value]
      ensures old(Faithful()) && status == MapOmem ==> Submap(contents, old(contents))
      ensures old(budget) == 0 && status == MapOmem ==>
        data == old(data) && data[..] == old(data[..]) && size == old(size)
      ensures old(HasPlace(hash, data[..], size, key)) <==> status == MapOk && budget == old(budget)
      ensures old(HasPlace(hash, data[..], size, key)) ==>
        data == old(data) && size == old(size) + 1
        && data[..] == Written(hash, old(data[..]), key, value, FirstPlace(hash, old(data[..]), key, 0))
      ensures old(budget) > 0 && !old(HasPlace(hash, data[..], size, key)) ==>
        (DoublingHelps(hash, old(data[..]), key) <==> status == MapOk && budget == old(budget) - 1)
      ensures old(budget) > 0 && !old(HasPlace(hash, data[..], size, key)) && DoublingHelps(hash, old(data[..]), key) ==>
        var refilled := Refilled(hash, old(data[..]), 2 * old(tableSize)).value;
        data[..] == Written(hash, refilled, key, value, FirstPlace(hash, refilled, key, 0))
      ensures status == MapOmem ==>
        !HasPlace(hash, data[..], size, key) || Starving(hash, data[..], size, old(data[..]))
      decreases budget, 3
    {
      var index;
      ghost var i;
      status, index, i := MakePlace(key);
      if status == MapOk {
        TargetIsFirst(hash, data[..], key, i);
        Write(key, value, index, i);
      }
    }

    /** Its loop: the table is doubled until there is a place for the key. */
    method MakePlace(key: Key) returns (status: Status, index: int, ghost i: nat)
      requires Valid()
      modifies this, data
      ensures Valid() && (data == old(data) || fresh(data)) && budget <= old(budget) && tableSize >= old(tableSize)
      ensures status == MapOk || (status == MapOmem && budget == 0)
      ensures budget == old(budget) ==>
        data == old(data) && data[..] == old(data[..]) && size == old(size) && contents == old(contents)
      ensures old(Faithful()) ==>
        Faithful() && Submap(contents, old(contents)) && (status == MapOk ==> contents == old(contents))
      ensures status == MapOk ==>
        size < tableSize / 2 && IsTarget(hash, data[..], key, i) && index == Probe(hash, key, tableSize, i)
      ensures old(HasPlace(hash, data[..], size, key)) <==> status == MapOk && budget == old(budget)
      ensures old(budget) > 0 && !old(HasPlace(hash, data[..], size, key)) ==>
        (DoublingHelps(hash, old(data[..]), key) <==> status == MapOk && budget == old(budget) - 1)
      ensures budget == old(budget) - 1 && status == MapOk ==>
        Refilled(hash, old(data[..]), 2 * old(tableSize)) == Some(data[..])
      ensures status == MapOmem ==>
        !HasPlace(hash, data[..], size, key) || Starving(hash, data[..], size, old(data[..]))
      decreases budget, 2
    {
      index, i := FindSlot(key);
      status := MapOk;
      while index < 0
        invariant Valid() && (data == old(data) || fresh(data)) && budget <= old(budget) && tableSize >= old(tableSize)
        invariant budget == old(budget) ==>
          data == old(data) && data[..] == old(data[..]) && size == old(size) && contents == old(contents)
        invariant old(Faithful()) ==> Faithful() && contents == old(contents)
        invariant index >= 0 <==> HasPlace(hash, data[..], size, key)
        invariant old(HasPlace(hash, data[..], size, key)) ==> budget == old(budget)
        invariant KeysWithin(data[..], old(data[..]))
        invariant budget == old(budget) - 1 ==>
          Refilled(hash, old(data[..]), 2 * old(tableSize)) == Some(data[..]) && size == Occupied(old(data[..]))
        invariant budget < old(budget) - 1 ==> !DoublingHelps(hash, old(data[..]), key)
        invariant index >= 0 ==> IsTarget(hash, data[..], key, i) && index == Probe(hash, key, tableSize, i)
        invariant status == MapOk
        decreases budget, index < 0
      {
        status, index, i := Grow(key, old(data[..]));
        if status == MapOmem {
          return;
        }
      }
    }

    /** One turn of the loop. */
    method Grow(key: Key, ghost S0: seq<Slot>) returns (status: Status, index: int, ghost i: nat)
      requires Valid() && !HasPlace(hash, data[..], size, key) && KeysWithin(data[..], S0)
      modifies this, data
      ensures Valid() && (data == old(data) || fresh(data)) && tableSize >= old(tableSize)
      ensures if status == MapOk then budget < old(budget) else status == MapOmem && budget == 0 <= old(budget)
      ensures budget == old(budget) ==>
        data == old(data) && data[..] == old(data[..]) && size == old(size) && contents == old(contents)
      ensures old(Faithful()) ==>
        Faithful() && Submap(contents, old(contents)) && (status == MapOk ==> contents == old(contents))
      ensures status == MapOk ==>
        (index >= 0 <==> HasPlace(hash, data[..], size, key)) && KeysWithin(data[..], S0)
        && (index >= 0 ==> IsTarget(hash, data[..], key, i) && index == Probe(hash, key, tableSize, i))
      ensures old(budget) > 0 ==>
        var refilled := Refilled(hash, old(data[..]), 2 * old(tableSize));
        && (refilled.Some? <==> status == MapOk && budget == old(budget) - 1)
        && (refilled.Some? ==> data[..] == refilled.value && size == Occupied(old(data[..])))
      ensures status == MapOmem ==>
        !HasPlace(hash, data[..], size, key) || Starving(hash, data[..], size, S0)
      decreases budget, 1
    {
      ghost var S := data[..];
      index, i := -1, 0;
      status := Rehash();
      if status == MapOmem {
        if Starving(hash, data[..], size, S) {
          StarvingWithin(hash, data[..], size, S, S0);
        }
        return;
      }
      assert S[..|S|] == S;
      ReplayedKeys(S, |S|, data[..], contents);
      KeysOn(data[..], S, S0);
      index, i := FindSlot(key);
    }

    /** hashmap_rehash. Whatever the old table was, the new one is a map: the old slots replayed. */
    method Rehash() returns (status: Status)
      requires Valid()
      modifies this, data
      ensures Valid() && (data == old(data) || fresh(data)) && budget <= old(budget)
      ensures status == MapOk || (status == MapOmem && budget == 0)
      ensures tableSize >= old(tableSize)
      ensures status == MapOk ==> budget < old(budget) && fresh(data) && tableSize >= 2 * old(tableSize)
      ensures status == MapOk ==> Faithful() && contents == Replay(old(data[..]))
      ensures old(Faithful()) ==>
        Faithful() && Submap(contents, old(contents)) && (status == MapOk ==> contents == old(contents))
      ensures old(budget) == 0 ==>
        status == MapOmem && data == old(data) && data[..] == old(data[..]) && size == old(size) &&
          contents == old(contents)
      ensures old(budget) > 0 ==>
        var refilled := Refilled(hash, old(data[..]), 2 * old(tableSize));
        && (refilled.Some? <==> status == MapOk && budget == old(budget) - 1)
        && (refilled.Some? ==> data[..] == refilled.value && size == Occupied(old(data[..])))
      ensures old(budget) > 0 && status == MapOmem ==>
        Starving(hash, data[..], size, old(data[..]))
      decreases budget, 0
    {
      ghost var S := data[..];
      if Faithful() {
        ReplayExact(hash, S, contents);
      }
      if budget == 0 {
        return MapOmem;
      }
      budget := budget - 1;
      var temp := new Slot[2 * tableSize](_ => FREE);
      var curr := data;
      data := temp;
      tableSize := 2 * tableSize;
      size := 0;
      contents := map[];
      EmptyTable(hash, data[..]);
      assert data[..] == seq(tableSize, i => FREE);
      status := Reinsert(curr);
    }

    /** The loop of hashmap_rehash over the old slots. */
    method Reinsert(curr: array<Slot>) returns (status: Status)
      requires Valid() && Faithful() && contents == map[] && curr != data
      requires size == 0 && data[..] == seq(tableSize, i => FREE)
      modifies this, data
      ensures Valid() && Faithful() && (data == old(data) || fresh(data)) && budget <= old(budget)
              && tableSize >= old(tableSize)
      ensures status == MapOk || (status == MapOmem && budget == 0)
      ensures status == MapOk ==> contents == Replay(curr[..])
      ensures Unique(curr[..]) ==> Submap(contents, Replay(curr[..]))
      ensures var refilled := Refilled(hash, curr[..], old(tableSize));
              && (refilled.Some? <==> status == MapOk && budget == old(budget))
              && (refilled.Some? ==> data[..] == refilled.value && size == Occupied(curr[..]))
      ensures status == MapOmem ==> Starving(hash, data[..], size, curr[..])
      decreases budget, 5
    {
      for i := 0 to curr.Length
        invariant Valid() && Faithful() && (data == old(data) || fresh(data)) && data != curr && budget <= old(budget)
                  && tableSize >= old(tableSize)
        invariant curr[..] == old(curr[..]) && contents == Replay(curr[..i])
        invariant RefilledTo(curr[..], i, old(tableSize), old(budget))
      {
        assert curr[..i + 1][..i] == curr[..i];
        if curr[i].inUse {
          status := ReinsertOne(curr, i, old(tableSize), old(budget));
          if status != MapOk {
            return;
          }
        }
      }
      assert curr[..curr.Length] == curr[..];
      status := MapOk;
    }

    /** The first i slots have found places in a table of n slots, unless an allocation was needed: there
        were b left at first. */
    ghost predicate RefilledTo(S: seq<Slot>, i: nat, n: nat, b: nat)
      requires i <= |S| && n > 0
      reads this, data
    {
      var refilled := Refilled(hash, S[..i], n);
      && (budget == b <==> refilled.Some?)
      && (budget == b ==> refilled == Some(data[..]) && size == Occupied(S[..i]))
    }

    method ReinsertOne(curr: array<Slot>, i: nat, ghost n: nat, ghost b: nat) returns (status: Status)
      requires Valid() && Faithful() && curr != data && i < curr.Length && curr[i].inUse && budget <= b && n > 0
      requires contents == Replay(curr[..i]) && RefilledTo(curr[..], i, n, b)
      modifies this, data
      ensures Valid() && Faithful() && (data == old(data) || fresh(data)) && budget <= old(budget)
              && tableSize >= old(tableSize)
      ensures status == MapOk || (status == MapOmem && budget == 0)
      ensures status == MapOk ==> contents == Replay(curr[..i + 1]) && RefilledTo(curr[..], i + 1, n, b)
      ensures status == MapOmem ==> Refilled(hash, curr[..], n).None? && Starving(hash, data[..], size, curr[..])
      ensures status == MapOmem && Unique(curr[..]) ==> Submap(contents, Replay(curr[..]))
      decreases budget, 4
    {
      ghost var S, T := curr[..], data[..];
      assert S[..i + 1][..i] == S[..i] == curr[..i] && S[..i + 1] == curr[..i + 1];
      ReplayedKeys(S, i, T, contents);
      assert Holds(S, i, S[i].key) && Stored(S, S[i].key);
      status := Put(curr[i].key, curr[i].data);
      if status != MapOk {
        StarvingStill(hash, data[..], size, S[i].key, T, S);
        ReplaySubmap(S, i);
        RefilledBefore(hash, S, n, i + 1);
      }
    }

    /** hashmap_remove. */
    method Remove(key: Key) returns (status: Status)
      requires Valid()
      modifies this`size, this`contents, data
      ensures Valid()
      ensures status == if Get(hash, old(data[..]), key).Some? then MapOk else MapMissing
      ensures status == MapMissing ==> data[..] == old(data[..]) && size == old(size) && contents == old(contents)
      ensures status == MapOk ==>
        size == old(size) - 1 && exists p: nat :: Holds(old(data[..]), p, key) && data[..] == Blanked(old(data[..]), p)
      ensures forall k :: k != key ==> Get(hash, data[..], k) == Get(hash, old(data[..]), k)
      ensures old(Unique(data[..]) && Stores(data[..], contents)) ==>
        Unique(data[..]) && Stores(data[..], contents) && contents == old(contents) - {key}
    {
      ghost var S := data[..];
      var curr := Home(hash, key, tableSize);
      var n := 0;
      while n < MAX_CHAIN_LENGTH
        invariant n <= MAX_CHAIN_LENGTH && curr == Probe(hash, key, tableSize, n)
        invariant Get(hash, S, key) == Lookup(hash, S, key, n)
        invariant data[..] == S && size == old(size) && contents == old(contents)
      {
        if data[curr].inUse && data[curr].key == key {
          BlankKeepsSound(hash, S, size, curr);
          if Unique(S) && Stores(S, contents) {
            BlankKeepsUnique(hash, S, size, contents, curr);
          }
          forall k | k != key ensures Get(hash, Blanked(S, curr), k) == Get(hash, S, k) {
            LookupUnaffected(hash, S, k, curr, FREE, 0);
          }
          data[curr] := FREE;
          assert data[..] == Blanked(S, curr) && Holds(S, curr, key);
          size := size - 1;
          contents := contents - {key};
          return MapOk;
        }
        curr := Next(curr, tableSize);
        n := n + 1;
      }
      if Unique(S) && Stores(S, contents) {
        GetFindsStored(hash, S, size, key);
        assert contents - {key} == contents;
      }
      return MapMissing;
    }
  }

  /** Part of a table without duplicates replays to part of its map. */
  lemma {:induction false} ReplaySubmap(S: seq<Slot>, n: nat)
    requires n <= |S|
    ensures Unique(S) ==> Submap(Replay(S[..n]), Replay(S))
    decreases |S|
  {
    if n == |S| {
      assert S[..n] == S;
    } else {
      var front := S[..|S| - 1];
      ReplaySubmap(front, n);
      assert front[..n] == S[..n];
      ReplayKeys(S[..n]);
      if Unique(S) {
        forall k | k in Replay(S[..n]) ensures !(S[|S| - 1].inUse && S[|S| - 1].key == k) {
          var p: nat :| Holds(S[..n], p, k);
          assert S[p] == S[..n][p];
        }
      }
    }
  }
}

// The open-addressing table from 64-bit keys, with tombstones, and the sets over
// it.
module HashTables {
  import opened Wrappers

  type Key = k: int | 0 <= k < 0x1_0000_0000_0000_0000

  datatype Entry<V> = Empty | Present(key: Key, value: V) | Tombstone

  type Slots<V> = seq<Entry<V>>

  const INITIAL_CAPACITY: nat := 8

  // ----- probing -----

  /** Where the probe for `key` is after `d` steps; capacities are powers of two,
      so that the masks of the code are remainders. */
  function Slot(key: Key, d: nat, capacity: nat): (i: nat)
    requires d < capacity
    ensures i < capacity
  {
    var s := key % capacity + d;
    if s < capacity then s else s - capacity
  }

  ghost predicate Full<V>(e: Slots<V>, key: Key, d: nat)
    requires d <= |e|
  {
    forall j: nat | j < d :: !e[Slot(key, j, |e|)].Empty?
  }

  /** `key` is found after `d` steps, and no empty slot lies on the way. */
  ghost predicate FoundAt<V>(e: Slots<V>, key: Key, d: nat) {
    d < |e| && e[Slot(key, d, |e|)].Present? && e[Slot(key, d, |e|)].key == key && Full(e, key, d)
  }

  ghost predicate Unique<V>(e: Slots<V>) {
    forall i, j | 0 <= i < j < |e| && e[i].Present? && e[j].Present? :: e[i].key != e[j].key
  }

  ghost predicate Found<V>(e: Slots<V>, key: Key) {
    exists d: nat :: FoundAt(e, key, d)
  }

  /** Every key can be found. */
  ghost predicate Probed<V>(e: Slots<V>) {
    forall i: nat | i < |e| && e[i].Present? :: Found(e, e[i].key)
  }

  ghost predicate Holds<V>(e: Slots<V>, m: map<Key, V>) {
    && (forall i: nat | i < |e| && e[i].Present? :: e[i].key in m && m[e[i].key] == e[i].value)
    && forall k | k in m :: exists i: nat :: i < |e| && e[i].Present? && e[i].key == k
  }

  ghost predicate TableOk<V>(e: Slots<V>, m: map<Key, V>) {
    Unique(e) && Probed(e) && Holds(e, m)
  }

  /** What a probe for `key` is to stop at: the key's slot, or else the first slot
      that holds no key. */
  ghost predicate Stops<V>(e: Slots<V>, m: map<Key, V>, key: Key, d: nat) {
    if key in m then FoundAt(e, key, d)
    else d < |e| && !e[Slot(key, d, |e|)].Present? && forall j: nat | j < d :: e[Slot(key, j, |e|)].Present?
  }

  lemma StopsFull<V>(e: Slots<V>, m: map<Key, V>, key: Key, d: nat)
    requires Stops(e, m, key, d)
    ensures d < |e| && Full(e, key, d)
  {
  }

  /** The loop of find_u64_hash_table_entry from distance `d` on, with the first
      tombstone met so far; None when it is not through after `fuel` rounds. */
  function Probe<V>(e: Slots<V>, key: Key, d: nat, tomb: Option<nat>, fuel: nat): Option<nat>
    requires d < |e|
    decreases fuel
  {
    if fuel == 0 then None
    else
      var i := Slot(key, d, |e|);
      var next := if d + 1 < |e| then d + 1 else 0;
      if e[i].Tombstone? && tomb.None? then Probe(e, key, next, Some(i), fuel - 1)
      else if e[i].Present? && e[i].key == key then Some(i)
      else if e[i].Empty? then Some(if tomb.Some? then tomb.value else i)
      else Probe(e, key, next, tomb, fuel - 1)
  }

  function Count<V>(e: Slots<V>, kind: Entry<()>): nat {
    if e == [] then 0
    else Count(e[..|e| - 1], kind) + (if Kind(e[|e| - 1]) == kind then 1 else 0)
  }

  function Kind<V>(x: Entry<V>): Entry<()> {
    match x
    case Empty => Empty
    case Tombstone => Tombstone
    case Present(_, _) => PRESENT
  }

  const PRESENT: Entry<()> := Present(0, ())

  lemma {:induction false} CountAll<V>(e: Slots<V>)
    ensures Count(e, Empty) + Count(e, Tombstone) + Count(e, PRESENT) == |e|
  {
    if e != [] {
      CountAll(e[..|e| - 1]);
    }
  }

  lemma {:induction false} CountSet<V>(e: Slots<V>, i: nat, x: Entry<V>, kind: Entry<()>)
    requires i < |e|
    ensures Count(e[i := x], kind) ==
            Count(e, kind) - (if Kind(e[i]) == kind then 1 else 0) + (if Kind(x) == kind then 1 else 0)
  {
    var n := |e| - 1;
    if i < n {
      assert e[i := x][..n] == e[..n][i := x];
      CountSet(e[..n], i, x, kind);
    } else {
      assert e[i := x][..n] == e[..n];
    }
  }

  lemma {:induction false} SomeOf<V>(e: Slots<V>, kind: Entry<()>)
    ensures Count(e, kind) > 0 <==> exists i: nat :: i < |e| && Kind(e[i]) == kind
  {
    if e != [] {
      var n := |e| - 1;
      SomeOf(e[..n], kind);
      if Count(e[..n], kind) > 0 {
        var i: nat :| i < |e[..n]| && Kind(e[..n][i]) == kind;
        assert e[i] == e[..n][i];
      }
      if i: nat :| i < |e| && Kind(e[i]) == kind {
        if i < n { assert Kind(e[..n][i]) == kind; }
      }
    }
  }

  lemma Counts<V>(e: Slots<V>, i: nat, x: Entry<V>)
    requires i < |e|
    ensures Count(e[i := x], PRESENT) == Count(e, PRESENT) - (if e[i].Present? then 1 else 0) + (if x.Present? then 1 else 0)
    ensures Count(e[i := x], Tombstone) ==
            Count(e, Tombstone) - (if e[i].Tombstone? then 1 else 0) + (if x.Tombstone? then 1 else 0)
  {
    CountSet(e, i, x, PRESENT);
    CountSet(e, i, x, Tombstone);
  }

  lemma {:induction false} AllEmpty<V>(e: Slots<V>)
    requires forall x | x in e :: x.Empty?
    ensures Count(e, PRESENT) == 0 && Count(e, Tombstone) == 0 && TableOk(e, map[])
  {
    if e != [] {
      AllEmpty(e[..|e| - 1]);
    }
  }

  /** The load limit and at most capacity / 4 tombstones leave an empty slot. */
  lemma RoomLeft<V>(e: Slots<V>)
    requires 4 * Count(e, PRESENT) < 3 * |e| && 4 * Count(e, Tombstone) <= |e|
    ensures exists i: nat :: i < |e| && e[i].Empty?
  {
    CountAll(e);
    SomeOf(e, Empty);
    var i: nat :| i < |e| && Kind(e[i]) == Empty;
    assert e[i].Empty?;
  }

  /** Every slot is met by every probe. */
  lemma Reaches<V>(e: Slots<V>, key: Key, i: nat) returns (d: nat)
    requires i < |e|
    ensures d < |e| && Slot(key, d, |e|) == i
  {
    var home := key % |e|;
    d := if home <= i then i - home else i + |e| - home;
  }

  // ----- what changes keep -----

  lemma StillFull<V>(e: Slots<V>, s: nat, x: Entry<V>, key: Key, d: nat)
    requires s < |e| && !x.Empty? && d <= |e| && Full(e, key, d)
    ensures Full(e[s := x], key, d)
  {
  }

  /** Changing one slot, not to empty, does not lose the other keys. */
  lemma StillFound<V>(e: Slots<V>, s: nat, x: Entry<V>, i: nat)
    requires s < |e| && !x.Empty? && Unique(e) && i < |e| && i != s && e[i].Present? && Found(e, e[i].key)
    ensures Found(e[s := x], e[i].key)
  {
    var d: nat :| FoundAt(e, e[i].key, d);
    SameSlot(e, i, Slot(e[i].key, d, |e|));
    StillFull(e, s, x, e[i].key, d);
    assert FoundAt(e[s := x], e[i].key, d);
  }

  lemma StillProbed<V>(e: Slots<V>, s: nat, x: Entry<V>)
    requires s < |e| && !x.Empty? && Probed(e) && Unique(e) && (x.Present? ==> Found(e[s := x], x.key))
    ensures Probed(e[s := x])
  {
    hide Found, Unique;
    var f := e[s := x];
    forall i: nat | i < |f| && f[i].Present?
      ensures Found(f, f[i].key)
    {
      if i != s { StillFound(e, s, x, i); }
    }
  }

  lemma SameSlot<V>(e: Slots<V>, i: nat, j: nat)
    requires Unique(e) && i < |e| && j < |e| && e[i].Present? && e[j].Present? && e[i].key == e[j].key
    ensures i == j
  {
  }

  /** No other slot holds the key a probe was for. */
  lemma OnlyThere<V>(e: Slots<V>, m: map<Key, V>, key: Key, d: nat, i: nat)
    requires Unique(e) && Holds(e, m) && Stops(e, m, key, d) && i < |e| && e[i].Present? && e[i].key == key
    ensures d < |e| && i == Slot(key, d, |e|)
  {
    SameSlot(e, i, Slot(key, d, |e|));
  }

  /** Filling the slot a probe stopped at. */
  lemma PutKeeps<V>(e: Slots<V>, m: map<Key, V>, key: Key, value: V, d: nat)
    requires TableOk(e, m) && d < |e| && Stops(e, m, key, d)
    ensures TableOk(e[Slot(key, d, |e|) := Present(key, value)], m[key := value])
  {
    StopsFull(e, m, key, d);
    var s, x := Slot(key, d, |e|), Present(key, value);
    var f := e[s := x];
    assert Unique(f) by {
      forall i: nat | i < |e| && i != s && e[i].Present?
        ensures e[i].key != key
      {
        if e[i].key == key { OnlyThere(e, m, key, d, i); }
      }
    }
    StillFull(e, s, x, key, d);
    assert FoundAt(f, key, d);
    assert Found(f, key);
    hide FoundAt, Found, Full, Holds, Probed;
    StillProbed(e, s, x);
    PutHolds(e, m, key, value, d);
  }

  lemma PutHolds<V>(e: Slots<V>, m: map<Key, V>, key: Key, value: V, d: nat)
    requires TableOk(e, m) && d < |e| && Stops(e, m, key, d)
    ensures Holds(e[Slot(key, d, |e|) := Present(key, value)], m[key := value])
  {
    hide Probed, Full, Slot;
    var s := Slot(key, d, |e|);
    var f, m1 := e[s := Present(key, value)], m[key := value];
    forall k | k in m1
      ensures exists i: nat :: i < |f| && f[i].Present? && f[i].key == k
    {
      if k == key {
        assert f[s].key == k;
      } else {
        var i: nat :| i < |e| && e[i].Present? && e[i].key == k;
        assert i != s && f[i] == e[i];
      }
    }
    forall i: nat | i < |f| && f[i].Present?
      ensures f[i].key in m1 && m1[f[i].key] == f[i].value
    {
      if i != s && f[i].key == key { OnlyThere(e, m, key, d, i); }
    }
  }

  lemma RemoveKeeps<V>(e: Slots<V>, m: map<Key, V>, key: Key, d: nat)
    requires TableOk(e, m) && d < |e| && Stops(e, m, key, d) && key in m
    ensures TableOk(e[Slot(key, d, |e|) := Tombstone], m - {key})
  {
    var s := Slot(key, d, |e|);
    var f := e[s := Tombstone];
    assert e[s].Present? && e[s].key == key;
    assert Unique(f);
    hide Probed, Full, Slot, FoundAt, Found, Holds;
    StillProbed(e, s, Tombstone);
    RemoveHolds(e, m, s);
  }

  lemma RemoveHolds<V>(e: Slots<V>, m: map<Key, V>, s: nat)
    requires Unique(e) && Holds(e, m) && s < |e| && e[s].Present?
    ensures Holds(e[s := Tombstone], m - {e[s].key})
  {
    var key, f := e[s].key, e[s := Tombstone];
    var m1 := m - {key};
    forall k | k in m1
      ensures exists i: nat :: i < |f| && f[i].Present? && f[i].key == k
    {
      var i: nat :| i < |e| && e[i].Present? && e[i].key == k;
      assert f[i] == e[i];
    }
    forall i: nat | i < |f| && f[i].Present?
      ensures f[i].key in m1 && m1[f[i].key] == f[i].value
    {
      assert f[i] == e[i];
    }
  }

  // ----- probing to the end -----

  ghost predicate HasEmpty<V>(e: Slots<V>) {
    exists i: nat :: i < |e| && e[i].Empty?
  }

  /** Without an empty slot the probe for a missing key never ends. */
  lemma {:induction false} ProbesForEver<V>(e: Slots<V>, m: map<Key, V>, key: Key, d: nat, tomb: Option<nat>, fuel: nat)
    requires Holds(e, m) && d < |e| && key !in m && !HasEmpty(e)
    ensures Probe(e, key, d, tomb, fuel).None?
    decreases fuel
  {
    hide Slot;
    if fuel > 0 {
      var i, next := Slot(key, d, |e|), if d + 1 < |e| then d + 1 else 0;
      assert !e[i].Empty? && !(e[i].Present? && e[i].key == key);
      ProbesForEver(e, m, key, next, tomb, fuel - 1);
      ProbesForEver(e, m, key, next, Some(i), fuel - 1);
    }
  }

  /** What is known when the probe has come to distance `d`. */
  ghost predicate OnTheWay<V>(e: Slots<V>, m: map<Key, V>, key: Key, d: nat, tomb: Option<nat>)
    requires d <= |e|
  {
    && Full(e, key, d)
    && (forall j: nat | j < d :: !(e[Slot(key, j, |e|)].Present? && e[Slot(key, j, |e|)].key == key))
    && (tomb.None? ==> forall j: nat | j < d :: e[Slot(key, j, |e|)].Present?)
    && (tomb.Some? ==> exists t: nat :: FirstTomb(e, key, t, d, tomb.value))
  }

  ghost predicate FirstTomb<V>(e: Slots<V>, key: Key, t: nat, d: nat, slot: nat)
    requires d <= |e|
  {
    t < d && Slot(key, t, |e|) == slot && e[slot].Tombstone? && forall j: nat | j < t :: e[Slot(key, j, |e|)].Present?
  }

  /** The probe has not been all around. */
  lemma NotAround<V>(e: Slots<V>, m: map<Key, V>, key: Key, tomb: Option<nat>)
    requires TableOk(e, m) && (key in m || HasEmpty(e))
    ensures !OnTheWay(e, m, key, |e|, tomb)
  {
    if key in m {
      var i: nat :| i < |e| && e[i].Present? && e[i].key == key;
      assert Found(e, key);
      var d: nat :| FoundAt(e, key, d);
    } else {
      var i: nat :| i < |e| && e[i].Empty?;
      var d := Reaches(e, key, i);
    }
  }

  lemma Onward<V>(e: Slots<V>, m: map<Key, V>, key: Key, d: nat, tomb: Option<nat>)
    requires d < |e| && OnTheWay(e, m, key, d, tomb)
    requires var x := e[Slot(key, d, |e|)]; !x.Empty? && !(x.Present? && x.key == key)
    ensures var i := Slot(key, d, |e|);
            OnTheWay(e, m, key, d + 1, if e[i].Tombstone? && tomb.None? then Some(i) else tomb)
  {
    hide Slot;
    var i := Slot(key, d, |e|);
    if tomb.Some? {
      var t: nat :| FirstTomb(e, key, t, d, tomb.value);
      assert FirstTomb(e, key, t, d + 1, tomb.value);
    } else if e[i].Tombstone? {
      assert FirstTomb(e, key, d, d + 1, i);
    }
  }

  /** A key of the table is met before any empty slot. */
  lemma NotYet<V>(e: Slots<V>, m: map<Key, V>, key: Key, d: nat)
    requires TableOk(e, m) && key in m && d < |e|
    requires forall j: nat | j < d :: !(e[Slot(key, j, |e|)].Present? && e[Slot(key, j, |e|)].key == key)
    ensures !e[Slot(key, d, |e|)].Empty?
  {
    var i: nat :| i < |e| && e[i].Present? && e[i].key == key;
    assert Found(e, key);
    var f: nat :| FoundAt(e, key, f);
  }

  lemma StopsHere<V>(e: Slots<V>, m: map<Key, V>, key: Key, d: nat, tomb: Option<nat>) returns (r: nat)
    requires TableOk(e, m) && d < |e| && OnTheWay(e, m, key, d, tomb)
    requires var x := e[Slot(key, d, |e|)]; x.Empty? || (x.Present? && x.key == key)
    ensures r < |e| && Stops(e, m, key, r) && Probe(e, key, d, tomb, |e| - d) == Some(Slot(key, r, |e|))
  {
    hide Slot, Unique;
    var i := Slot(key, d, |e|);
    r := d;
    if e[i].Empty? {
      if key in m { NotYet(e, m, key, d); }
      if tomb.Some? {
        r :| FirstTomb(e, key, r, d, tomb.value);
      }
    }
  }

  /** With an empty slot, or for a key of the table, it stops within one round. */
  lemma {:induction false} ProbeStops<V>(e: Slots<V>, m: map<Key, V>, key: Key, d: nat, tomb: Option<nat>) returns (r: nat)
    requires TableOk(e, m) && d <= |e| && OnTheWay(e, m, key, d, tomb) && (key in m || HasEmpty(e))
    ensures d < |e| && r < |e| && Stops(e, m, key, r) && Probe(e, key, d, tomb, |e| - d) == Some(Slot(key, r, |e|))
    decreases |e| - d
  {
    if d == |e| { NotAround(e, m, key, tomb); }
    hide Slot, TableOk, OnTheWay, Stops, HasEmpty;
    var i := Slot(key, d, |e|);
    if e[i].Empty? || (e[i].Present? && e[i].key == key) {
      r := StopsHere(e, m, key, d, tomb);
    } else {
      Onward(e, m, key, d, tomb);
      r := ProbeStops(e, m, key, d + 1, if e[i].Tombstone? && tomb.None? then Some(i) else tomb);
    }
  }

  /** The probe ends exactly for the keys of the table, and for the others exactly
      while a slot is empty. */
  lemma ProbeEnds<V>(e: Slots<V>, m: map<Key, V>, key: Key)
    requires TableOk(e, m) && e != []
    ensures (exists fuel: nat :: Probe(e, key, 0, None, fuel).Some?) <==> key in m || HasEmpty(e)
  {
    hide TableOk;
    if key in m || HasEmpty(e) {
      assert OnTheWay(e, m, key, 0, None);
      var r := ProbeStops(e, m, key, 0, None);
    } else {
      assert Holds(e, m) by { OkHolds(e, m); }
      forall fuel: nat
        ensures Probe(e, key, 0, None, fuel).None?
      {
        ProbesForEver(e, m, key, 0, None, fuel);
      }
    }
  }

  lemma OkHolds<V>(e: Slots<V>, m: map<Key, V>)
    requires TableOk(e, m)
    ensures Holds(e, m)
  {
  }

  /** find_u64_hash_table_entry.  The loop ends because the probe does. */
  method Find<V>(entries: array<Entry<V>>, key: Key, ghost m: map<Key, V>) returns (slot: nat, ghost d: nat)
    requires entries.Length > 0 && TableOk(entries[..], m) && (key in m || HasEmpty(entries[..]))
    ensures d < entries.Length && slot == Slot(key, d, entries.Length) && Stops(entries[..], m, key, d)
    ensures slot < entries.Length && if key in m then entries[slot] == Present(key, m[key]) else !entries[slot].Present?
  {
    ghost var e := entries[..];
    assert OnTheWay(e, m, key, 0, None);
    d := ProbeStops(e, m, key, 0, None);
    StopsAt(e, m, key, d);
    hide TableOk, OnTheWay, Stops, HasEmpty;
    var index := key % entries.Length;
    var lastTombstone: Option<nat> := None;
    ghost var step := 0;
    while true
      invariant step < entries.Length && index == Slot(key, step, entries.Length)
      invariant Probe(e, key, step, lastTombstone, |e| - step) == Some(Slot(key, d, |e|))
      decreases entries.Length - step
    {
      var current := entries[index];
      assert current == e[index];
      if step + 1 == |e| { LastRound(e, key, step, lastTombstone); }
      if current.Tombstone? && lastTombstone.None? {
        lastTombstone := Some(index);
      } else if current.Present? && current.key == key {
        return index, d;
      } else if current.Empty? {
        return if lastTombstone.Some? then lastTombstone.value else index, d;
      }
      index := if index + 1 == entries.Length then 0 else index + 1;
      step := step + 1;
    }
  }

  /** A probe that ends within one round ends in its last slot at the latest. */
  lemma LastRound<V>(e: Slots<V>, key: Key, d: nat, tomb: Option<nat>)
    requires d + 1 == |e| && Probe(e, key, d, tomb, 1).Some?
    ensures var x := e[Slot(key, d, |e|)]; x.Empty? || (x.Present? && x.key == key)
  {
  }

  /** Put a new key in a table that is being filled. */
  method Move<V>(entries: array<Entry<V>>, key: Key, value: V, ghost m: map<Key, V>)
    requires TableOk(entries[..], m) && key !in m
    requires Count(entries[..], PRESENT) < entries.Length && Count(entries[..], Tombstone) == 0
    modifies entries
    ensures TableOk(entries[..], m[key := value])
    ensures Count(entries[..], PRESENT) == old(Count(entries[..], PRESENT)) + 1 && Count(entries[..], Tombstone) == 0
  {
    hide TableOk, Stops, HasEmpty;
    RoomForOne(entries[..]);
    var slot; ghost var d;
    slot, d := Find(entries, key, m);
    ghost var e, x := entries[..], Present(key, value);
    StopsAt(e, m, key, d);
    PutKeeps(e, m, key, value, d);
    Counts(e, slot, x);
    entries[slot] := Present(key, value);
    assert entries[..] == e[slot := x];
  }

  function NewCapacity(capacity: nat): nat {
    if 2 * capacity > INITIAL_CAPACITY then 2 * capacity else INITIAL_CAPACITY
  }

  // ----- what an operation does to the slots -----

  /** The table of a map after a growth. */
  ghost predicate Grown<V>(e: Slots<V>, m: map<Key, V>, capacity: nat) {
    |e| == capacity && TableOk(e, m) && Count(e, Tombstone) == 0
  }

  ghost predicate FilledAt<V>(e: Slots<V>, m: map<Key, V>, key: Key, value: V, f: Slots<V>, d: nat) {
    d < |e| && Stops(e, m, key, d) && f == e[Slot(key, d, |e|) := Present(key, value)]
  }

  /** The slot where the probe for `key` stops was filled. */
  ghost predicate Filled<V>(e: Slots<V>, m: map<Key, V>, key: Key, value: V, f: Slots<V>) {
    exists d: nat :: FilledAt(e, m, key, value, f, d)
  }

  /** The slot of `key`, if it has one, became a tombstone. */
  ghost predicate Buried<V>(e: Slots<V>, m: map<Key, V>, key: Key, f: Slots<V>) {
    if key in m then exists i: nat :: i < |e| && e[i] == Present(key, m[key]) && f == e[i := Tombstone] else f == e
  }

  ghost predicate TombstoneAt<V>(e: Slots<V>, m: map<Key, V>, key: Key, d: nat) {
    d < |e| && Stops(e, m, key, d) && e[Slot(key, d, |e|)].Tombstone?
  }

  /** A put of a new key that comes to a tombstone before any empty slot. */
  ghost predicate Reuses<V>(e: Slots<V>, m: map<Key, V>, key: Key) {
    exists d: nat :: TombstoneAt(e, m, key, d)
  }

  lemma EmptyIff<V>(e: Slots<V>)
    ensures HasEmpty(e) <==> Count(e, Empty) > 0
  {
    SomeOf(e, Empty);
    if i: nat :| i < |e| && Kind(e[i]) == Empty { assert e[i].Empty?; }
    if i: nat :| i < |e| && e[i].Empty? { assert Kind(e[i]) == Empty; }
  }

  /** Only a new key that reuses no tombstone takes an empty slot. */
  lemma FilledCounts<V>(e: Slots<V>, m: map<Key, V>, key: Key, value: V, f: Slots<V>)
    requires TableOk(e, m) && Filled(e, m, key, value, f)
    ensures |f| == |e| && Count(f, Tombstone) <= Count(e, Tombstone)
    ensures Count(f, Empty) == Count(e, Empty) - if key in m || Reuses(e, m, key) then 0 else 1
  {
    var d: nat :| FilledAt(e, m, key, value, f, d);
    var s := Slot(key, d, |e|);
    CountSet(e, s, Present(key, value), Empty);
    CountSet(e, s, Present(key, value), Tombstone);
    StopsAt(e, m, key, d);
    if key !in m {
      if t: nat :| TombstoneAt(e, m, key, t) {
        SameStop(e, m, key, d, t);
      } else {
        assert !TombstoneAt(e, m, key, d);
      }
    }
  }

  /** After a filling a slot is empty if one was that was not the last or not taken. */
  lemma LiveAfter<V>(e: Slots<V>, m: map<Key, V>, key: Key, value: V, f: Slots<V>)
    requires TableOk(e, m) && Filled(e, m, key, value, f)
    ensures HasEmpty(f) <==> HasEmpty(e) && (key in m || Reuses(e, m, key) || Count(e, Empty) >= 2)
  {
    hide TableOk, Filled, Reuses, Count, HasEmpty;
    FilledCounts(e, m, key, value, f);
    EmptyIff(e);
    EmptyIff(f);
  }

  lemma SameStop<V>(e: Slots<V>, m: map<Key, V>, key: Key, c: nat, d: nat)
    requires key !in m && Stops(e, m, key, c) && Stops(e, m, key, d)
    ensures c == d
  {
    hide Slot;
  }

  class U64HashTable<V> {
    var entries: array<Entry<V>>     // its length is the capacity
    var size: nat
    ghost var Contents: map<Key, V>
    ghost var removals: nat          // tombstones made since the last growth

    ghost predicate Valid()
      reads this, entries
    {
      && TableOk(entries[..], Contents)
      && size == Count(entries[..], PRESENT)
      && (entries.Length > 0 ==> 4 * size < 3 * entries.Length)
      && Count(entries[..], Tombstone) <= removals
      && (entries.Length == 0 || entries.Length >= INITIAL_CAPACITY)
    }

    /** While a slot is empty every probe ends; a table without slots is not probed. */
    ghost predicate Live()
      reads this, entries
    {
      entries.Length > 0 ==> HasEmpty(entries[..])
    }

    ghost function Empties(): nat
      reads this, entries
    {
      Count(entries[..], Empty)
    }

    ghost function Tombstones(): nat
      reads this, entries
    {
      Count(entries[..], Tombstone)
    }

    /** Whether a put begins with a growth. */
    predicate MustGrow()
      reads this
    {
      4 * (size + 1) >= 3 * entries.Length
    }

    /** At most a quarter of the capacity was removed since the last growth. */
    ghost predicate Budget()
      reads this, entries
    {
      4 * removals <= entries.Length
    }

    /** Keys that are new can be put, n of them, and every probe ends. */
    ghost predicate Room(n: nat)
      reads this, entries
    {
      entries.Length == 0 || Empties() > n || 4 * Tombstones() <= entries.Length
    }

    lemma LiveIff()
      ensures Live() <==> entries.Length == 0 || Empties() > 0
    {
      EmptyIff(entries[..]);
    }

    /** Few tombstones leave an empty slot, and so do few removals. */
    lemma Roomy()
      requires Valid()
      ensures Room(0) <==> Live()
      ensures Budget() ==> forall n: nat :: Room(n)
    {
      hide TableOk;
      LiveIff();
      if entries.Length > 0 && 4 * Tombstones() <= entries.Length { RoomLeft(entries[..]); }
    }

    /** Room for some keys is room for none. */
    lemma RoomNow(n: nat)
      requires Valid() && Room(n)
      ensures Live()
    {
      Roomy();
    }

    constructor ()
      ensures Valid() && Budget() && Live() && fresh(entries) && entries.Length == 0 && Contents == map[]
    {
      entries, size := new Entry<V>[0], 0;
      Contents, removals := map[], 0;
    }

    method Get(key: Key) returns (r: Option<V>)
      requires Valid() && (size == 0 || key in Contents || Live())
      ensures r == if key in Contents then Some(Contents[key]) else None
    {
      if size == 0 {
        NothingIn();
        return None;
      }
      var slot; ghost var d;
      slot, d := Find(entries, key, Contents);
      r := if entries[slot].Present? then Some(entries[slot].value) else None;
    }

    method Contains(key: Key) returns (r: bool)
      requires Valid() && (size == 0 || key in Contents || Live())
      ensures r <==> key in Contents
    {
      if size == 0 {
        NothingIn();
        return false;
      }
      var slot; ghost var d;
      slot, d := Find(entries, key, Contents);
      r := entries[slot].Present?;
    }

    lemma NothingIn()
      requires Valid() && size == 0
      ensures Contents == map[]
    {
      SomeOf(entries[..], PRESENT);
    }

    lemma Keys()
      requires Valid()
      ensures KeysIn(entries[..]) == Contents.Keys
    {
      HeldKeys(entries[..], Contents);
    }

    lemma SomethingIn()
      requires Valid() && size > 0
      ensures Contents != map[]
    {
      SomeOf(entries[..], PRESENT);
    }

    /** The result says whether the key was there before.  The entries are those
        before, or those of a grown table, with one slot filled; afterwards a slot is
        empty exactly if the table grew, or one was empty that was not the last or
        was not taken. */
    method Put(key: Key, value: V) returns (existed: bool)
      requires Valid() && (MustGrow() || key in Contents || Live())
      modifies this, entries
      ensures Valid() && Contents == old(Contents)[key := value] && (existed <==> key in old(Contents))
      ensures size == old(size) + if existed then 0 else 1
      ensures if old(MustGrow()) then fresh(entries) && removals == 0 else entries == old(entries) && removals == old(removals)
      ensures var was := old(entries.Length);
              entries.Length == if 4 * (old(size) + 1) < 3 * was then was else if was < 8 then 8 else 2 * was
      ensures exists e :: Filled(e, old(Contents), key, value, entries[..])
                          && if old(MustGrow()) then Grown(e, old(Contents), NewCapacity(old(entries).Length)) else e == old(entries[..])
      ensures old(Budget()) ==> Budget()
      ensures Live() <==> old(MustGrow()) || (old(Live()) && (existed || old(Reuses(entries[..], Contents, key)) || old(Empties()) >= 2))
    {
      hide TableOk, Filled, HasEmpty, Reuses, Stops, Holds, Count;
      ghost var grows := MustGrow();
      if MustGrow() {
        Grow();
      }
      ghost var e := entries[..];
      if grows { GrownLive(); }
      existed := Fill(key, value);
      LiveAfter(e, old(Contents), key, value, entries[..]);
    }

    lemma GrownLive()
      requires Valid() && Tombstones() == 0 && entries.Length > 0 && !MustGrow()
      ensures Empties() >= 2 && Live()
    {
      CountAll(entries[..]);
      LiveIff();
    }

    /** Write the slot that the probe stops at. */
    method Fill(key: Key, value: V) returns (existed: bool)
      requires Valid() && !MustGrow() && (key in Contents || Live())
      modifies this`size, this`Contents, entries
      ensures Valid() && Contents == old(Contents)[key := value] && (existed <==> key in old(Contents))
      ensures size == old(size) + if existed then 0 else 1
      ensures Filled(old(entries[..]), old(Contents), key, value, entries[..])
    {
      hide TableOk, Stops;
      var slot; ghost var d;
      slot, d := Find(entries, key, Contents);
      ghost var e, x := entries[..], Present(key, value);
      StopsAt(e, Contents, key, d);
      existed := entries[slot].Present?;
      PutKeeps(e, Contents, key, value, d);
      Counts(e, slot, x);
      entries[slot] := Present(key, value);
      assert entries[..] == e[slot := x];
      assert FilledAt(e, Contents, key, value, entries[..], d);
      Contents := Contents[key := value];
      if !existed {
        size := size + 1;
      }
    }

    /** A tombstone takes no empty slot. */
    method Remove(key: Key)
      requires Valid() && (key in Contents || Live())
      modifies this`size, this`Contents, this`removals, entries
      ensures Valid() && Contents == old(Contents) - {key} && (Live() <==> old(Live()))
      ensures Buried(old(entries[..]), old(Contents), key, entries[..])
      ensures removals == old(removals) + (if key in old(Contents) then 1 else 0)
      ensures size == old(size) - if key in old(Contents) then 1 else 0
    {
      hide TableOk, Stops;
      if entries.Length == 0 {
        NothingIn();
        return;
      }
      var slot; ghost var d;
      slot, d := Find(entries, key, Contents);
      ghost var e := entries[..];
      StopsAt(e, Contents, key, d);
      EmptyIff(e);
      if entries[slot].Present? {
        RemoveKeeps(e, Contents, key, d);
        Counts(e, slot, Tombstone);
        CountSet(e, slot, Tombstone, Empty);
        SomeOf(e, PRESENT);
        entries[slot] := Tombstone;
        assert entries[..] == e[slot := Tombstone];
        assert e[slot] == Present(key, Contents[key]);
        Contents, removals := Contents - {key}, removals + 1;
        size := size - 1;
      }
      EmptyIff(entries[..]);
    }

    method Clear()
      requires Valid()
      modifies this`size, this`Contents, this`removals, entries
      ensures Valid() && Budget() && Contents == map[]
    {
      size := 0;
      for i := 0 to entries.Length
        invariant entries == old(entries) && size == 0 && forall j | 0 <= j < i :: entries[j].Empty?
      {
        entries[i] := Empty;
      }
      AllEmpty(entries[..]);
      Contents, removals := map[], 0;
    }

    /** All keys move to a table twice as large; tombstones do not. */
    method Grow()
      requires Valid()
      modifies this`entries, this`removals
      ensures Valid() && fresh(entries) && removals == 0 && !MustGrow()
      ensures Grown(entries[..], Contents, NewCapacity(old(entries).Length))
    {
      var newCapacity := NewCapacity(entries.Length);
      var newEntries := new Entry<V>[newCapacity](_ => Empty);
      ghost var e, m: map<Key, V> := entries[..], map[];
      AllEmpty(newEntries[..]);
      NothingYet(e);
      hide TableOk, Holds, Count;
      for i := 0 to entries.Length
        invariant entries == old(entries) && entries[..] == e && fresh(newEntries)
        invariant TableOk(newEntries[..], m) && Holds(e[..i], m)
        invariant Count(newEntries[..], Tombstone) == 0 && Count(newEntries[..], PRESENT) == Count(e[..i], PRESENT) <= i
      {
        CountNext(e, i);
        HoldsMore(e, i, m, Contents);
        if entries[i].Present? {
          Move(newEntries, entries[i].key, entries[i].value, m);
          m := m[entries[i].key := entries[i].value];
        }
      }
      assert e[..entries.Length] == e;
      SameContents(e, m, Contents);
      entries := newEntries;
      removals := 0;
    }
  }

  lemma StopsAt<V>(e: Slots<V>, m: map<Key, V>, key: Key, d: nat)
    requires TableOk(e, m) && Stops(e, m, key, d)
    ensures d < |e| && (e[Slot(key, d, |e|)].Present? <==> key in m)
  {
  }

  lemma RoomForOne<V>(e: Slots<V>)
    requires Count(e, PRESENT) < |e| && Count(e, Tombstone) == 0
    ensures HasEmpty(e)
  {
    CountAll(e);
    SomeOf(e, Empty);
    var i: nat :| i < |e| && Kind(e[i]) == Empty;
    assert e[i].Empty?;
  }

  /** The keys of one more slot; it holds none of those before. */
  lemma HoldsMore<V>(e: Slots<V>, i: nat, m: map<Key, V>, all: map<Key, V>)
    requires i < |e| && Holds(e[..i], m) && TableOk(e, all)
    ensures if e[i].Present? then e[i].key !in m && Holds(e[..i + 1], m[e[i].key := e[i].value]) else Holds(e[..i + 1], m)
  {
    hide Probed;
    var f := e[..i + 1];
    if e[i].Present? {
      forall k | k in m
        ensures k != e[i].key
      {
        var j: nat :| j < i && e[..i][j].Present? && e[..i][j].key == k;
      }
    }
    var m1 := if e[i].Present? then m[e[i].key := e[i].value] else m;
    forall k | k in m1
      ensures exists j: nat :: j < |f| && f[j].Present? && f[j].key == k
    {
      if k in m {
        var j: nat :| j < i && e[..i][j].Present? && e[..i][j].key == k;
        assert f[j] == e[..i][j];
      } else {
        assert f[i].key == k;
      }
    }
    forall j: nat | j < |f| && f[j].Present?
      ensures f[j].key in m1 && m1[f[j].key] == f[j].value
    {
      if j < i { assert f[j] == e[..i][j]; }
    }
  }

  lemma NothingYet<V>(e: Slots<V>)
    ensures Holds(e[..0], map[]) && Count(e[..0], PRESENT) == 0
  {
  }

  lemma SameContents<V>(e: Slots<V>, m: map<Key, V>, n: map<Key, V>)
    requires Holds(e, m) && TableOk(e, n)
    ensures m == n
  {
    forall k | k in m
      ensures k in n && m[k] == n[k]
    {
      var i: nat :| i < |e| && e[i].Present? && e[i].key == k;
    }
    forall k | k in n
      ensures k in m
    {
      var i: nat :| i < |e| && e[i].Present? && e[i].key == k;
    }
  }

  /** A table of eight: keys below `removed` were put and removed, those from there
      to `present` are in it. */
  function Eight(removed: nat, present: nat): Slots<()>
    ensures |Eight(removed, present)| == INITIAL_CAPACITY
  {
    seq(INITIAL_CAPACITY, i requires 0 <= i < INITIAL_CAPACITY =>
      if i < removed then Tombstone else if i < present then Present(i, ()) else Empty)
  }

  function KeysFrom(removed: nat, present: nat): map<Key, ()>
    requires present <= INITIAL_CAPACITY
    ensures forall k: Key :: k in KeysFrom(removed, present) <==> removed <= k < present
  {
    if present <= removed then map[] else KeysFrom(removed, present - 1)[present - 1 := ()]
  }

  /** Without a limit on removals the table runs full of tombstones: keys 0 to 4
      put and removed, then 5, 6 and 7 put, and no slot is empty. */
  method RunFull() returns (t: U64HashTable<()>)
    ensures t.Valid() && t.entries[..] == Eight(5, 8) && t.Contents == KeysFrom(5, 8) && !t.Live()
  {
    t := new U64HashTable<()>();
    PutFrom(t, 0, 0, 5);
    RemoveUpTo(t, 5);
    PutFrom(t, 5, 5, 8);
    t.LiveIff();
  }

  ghost predicate InEight(t: U64HashTable<()>, removed: nat, present: nat)
    requires present <= INITIAL_CAPACITY
    reads t, t.entries
  {
    && t.Valid() && t.Contents == KeysFrom(removed, present) && t.size == present - removed
    && if t.entries.Length == 0 then present == 0 else t.entries[..] == Eight(removed, present)
  }

  method PutFrom(t: U64HashTable<()>, removed: nat, from: nat, to: nat)
    requires removed <= from < to <= INITIAL_CAPACITY && to - removed <= 5 && InEight(t, removed, from)
    modifies t, t.entries
    ensures InEight(t, removed, to) && (t.entries == old(t.entries) || fresh(t.entries))
  {
    hide InEight;
    for k := from to to
      invariant InEight(t, removed, k) && (t.entries == old(t.entries) || fresh(t.entries))
    {
      PutNext(t, removed, k);
    }
  }

  /** The home of key k is slot k, which is empty. */
  method PutNext(t: U64HashTable<()>, removed: nat, k: nat)
    requires removed <= k < INITIAL_CAPACITY && k - removed < 5 && InEight(t, removed, k)
    modifies t, t.entries
    ensures InEight(t, removed, k + 1) && (t.entries == old(t.entries) || fresh(t.entries))
  {
    hide TableOk, Filled, KeysFrom;
    ghost var m, was, grows := t.Contents, t.entries[..], t.MustGrow();
    KeysMore(removed, k);
    if t.entries.Length > 0 { assert was[k].Empty?; }
    var existed := t.Put(k, ());
    ghost var e :| Filled(e, m, k, (), t.entries[..]) && if grows then Grown(e, m, NewCapacity(|was|)) else e == was;
    if grows { NoneThere(e); }
    assert e == Eight(removed, k);
    HomeFree(e, m, k, (), t.entries[..]);
    assert t.entries[..] == Eight(removed, k + 1);
  }

  method RemoveUpTo(t: U64HashTable<()>, n: nat)
    requires n <= INITIAL_CAPACITY && InEight(t, 0, n) && t.entries.Length > 0
    modifies t, t.entries
    ensures InEight(t, n, n) && t.entries == old(t.entries)
  {
    hide TableOk, KeysFrom;
    for k := 0 to n
      invariant InEight(t, k, n) && t.entries == old(t.entries)
    {
      ghost var m, was := t.Contents, t.entries[..];
      KeysLess(k, n);
      t.Remove(k);
      ghost var i: nat :| i < |was| && was[i] == Present(k, m[k]) && t.entries[..] == was[i := Tombstone];
      assert t.entries[..] == Eight(k + 1, n);
    }
  }

  lemma KeysMore(removed: nat, k: nat)
    requires removed <= k < INITIAL_CAPACITY
    ensures k !in KeysFrom(removed, k) && KeysFrom(removed, k + 1) == KeysFrom(removed, k)[k := ()]
    ensures k == removed ==> KeysFrom(removed, k) == map[]
  {
  }

  lemma KeysLess(k: nat, n: nat)
    requires k < n <= INITIAL_CAPACITY
    ensures k in KeysFrom(k, n) && KeysFrom(k + 1, n) == KeysFrom(k, n) - {k}
  {
    var a, b := KeysFrom(k + 1, n), KeysFrom(k, n) - {k};
    assert forall x: Key :: x in a <==> x in b;
    assert forall x | x in a :: a[x] == () == b[x];
  }

  /** A key whose home is free goes there. */
  lemma HomeFree<V>(e: Slots<V>, m: map<Key, V>, key: Key, value: V, f: Slots<V>)
    requires Filled(e, m, key, value, f) && key !in m && e != [] && !e[key % |e|].Present?
    ensures f == e[key % |e| := Present(key, value)]
  {
    var d: nat :| FilledAt(e, m, key, value, f, d);
    assert Slot(key, 0, |e|) == key % |e|;
  }

  lemma NoneThere(e: Slots<()>)
    requires Grown(e, map[], INITIAL_CAPACITY)
    ensures e == Eight(0, 0)
  {
    SomeOf(e, Tombstone);
    forall i: nat | i < |e|
      ensures e[i].Empty?
    {
      assert Kind(e[i]) != Tombstone;
    }
  }

  /** In the table so reached, looking for any other key does not end. */
  lemma OutOfRoom(fuel: nat)
    ensures var e, m := Eight(5, 8), KeysFrom(5, 8);
            TableOk(e, m) && 4 * Count(e, PRESENT) < 3 * |e| && forall key | key !in m :: Probe(e, key, 0, None, fuel).None?
  {
    var e, m := Eight(5, 8), KeysFrom(5, 8);
    assert Holds(e, m) by { assert e[5].key == 5 && e[6].key == 6 && e[7].key == 7; }
    AllAtHome(e);
    ThreePresent(e);
    hide Probed, Count;
    forall key | key !in m
      ensures Probe(e, key, 0, None, fuel).None?
    {
      ProbesForEver(e, m, key, 0, None, fuel);
    }
  }

  lemma AllAtHome(e: Slots<()>)
    requires e == Eight(5, 8)
    ensures Probed(e)
  {
    forall i: nat | i < 8 && e[i].Present?
      ensures Found(e, e[i].key)
    {
      assert FoundAt(e, e[i].key, 0);
    }
  }

  lemma ThreePresent(e: Slots<()>)
    requires e == Eight(5, 8)
    ensures Count(e, PRESENT) == 3
  {
    var none := e[..5];
    NoneOf(none, PRESENT);
    CountPush(none, e[5], PRESENT);
    CountPush(none + [e[5]], e[6], PRESENT);
    CountPush(none + [e[5]] + [e[6]], e[7], PRESENT);
    assert e == none + [e[5]] + [e[6]] + [e[7]];
  }

  lemma CountPush<V>(e: Slots<V>, x: Entry<V>, kind: Entry<()>)
    ensures Count(e + [x], kind) == Count(e, kind) + (if Kind(x) == kind then 1 else 0)
  {
    assert (e + [x])[..|e|] == e;
  }

  lemma {:induction false} NoneOf<V>(e: Slots<V>, kind: Entry<()>)
    requires forall i | 0 <= i < |e| :: Kind(e[i]) != kind
    ensures Count(e, kind) == 0
  {
    if e != [] { NoneOf(e[..|e| - 1], kind); }
  }

  // ----- iteration -----

  function KeysIn<V>(e: Slots<V>): set<Key> {
    set i | 0 <= i < |e| && e[i].Present? :: e[i].key
  }

  lemma HeldKeys<V>(e: Slots<V>, m: map<Key, V>)
    requires Holds(e, m)
    ensures KeysIn(e) == m.Keys
  {
  }

  lemma {:induction false} CountGrows<V>(e: Slots<V>, i: nat, kind: Entry<()>)
    requires i <= |e|
    ensures Count(e[..i], kind) <= Count(e, kind)
    ensures Count(e[..i], kind) == Count(e, kind) ==> forall j: nat | i <= j < |e| :: Kind(e[j]) != kind
    decreases |e|
  {
    var n := |e| - 1;
    if i == |e| {
      assert e[..i] == e;
    } else {
      assert e[..n][..i] == e[..i];
      CountGrows(e[..n], i, kind);
      if Count(e[..i], kind) == Count(e, kind) {
        forall j: nat | i <= j < |e|
          ensures Kind(e[j]) != kind
        {
          if j < n { assert e[j] == e[..n][j]; }
        }
      }
    }
  }

  lemma CountNext<V>(e: Slots<V>, i: nat)
    requires i < |e|
    ensures forall kind :: Count(e[..i + 1], kind) == Count(e[..i], kind) + (if Kind(e[i]) == kind then 1 else 0)
    ensures KeysIn(e[..i + 1]) == KeysIn(e[..i]) + (if e[i].Present? then {e[i].key} else {})
  {
    assert e[..i + 1][..i] == e[..i];
    assert e[..i + 1] == e[..i] + [e[i]];
  }

  class TableIterator<V> {
    const entries: array<Entry<V>>   // those the table had when the iteration began
    const size: nat
    var currentIndex: nat
    var nReturned: nat

    ghost predicate Valid()
      reads this, entries
    {
      && currentIndex <= entries.Length && Unique(entries[..])
      && nReturned == Count(entries[..currentIndex], PRESENT) && size == Count(entries[..], PRESENT)
    }

    /** The keys returned so far. */
    ghost function Returned(): set<Key>
      requires currentIndex <= entries.Length
      reads this, entries
    {
      KeysIn(entries[..currentIndex])
    }

    constructor (table: U64HashTable<V>)
      requires table.Valid()
      ensures Valid() && entries == table.entries && Returned() == {}
    {
      entries, size := table.entries, table.size;
      currentIndex, nReturned := 0, 0;
    }

    function HasNext(): bool
      reads this
    {
      nReturned < size
    }

    /** The loop stays within the table because an entry is still to come. */
    method Next() returns (key: Key, value: V)
      requires Valid() && HasNext()
      modifies this`currentIndex, this`nReturned
      ensures Valid() && Present(key, value) in entries[..] && Returned() == old(Returned()) + {key}
      ensures nReturned == old(nReturned) + 1 && key !in old(Returned())
    {
      while true
        invariant Valid() && nReturned == old(nReturned) < size && Returned() == old(Returned())
        decreases entries.Length - currentIndex
      {
        assert entries[..entries.Length] == entries[..] && entries[..][..currentIndex] == entries[..currentIndex];
        var entry := entries[currentIndex];
        CountNext(entries[..], currentIndex);
        assert entries[..][..currentIndex + 1] == entries[..currentIndex + 1];
        currentIndex := currentIndex + 1;
        if entry.Present? {
          assert entry.key !in old(Returned());
          nReturned := nReturned + 1;
          return entry.key, entry.value;
        }
      }
    }

    /** When nothing is left, all keys were returned. */
    lemma AllReturned()
      requires Valid() && !HasNext()
      ensures Returned() == KeysIn(entries[..])
    {
      var e := entries[..];
      assert e[..currentIndex] == entries[..currentIndex];
      CountGrows(e, currentIndex, PRESENT);
      forall i: nat | currentIndex <= i < |e|
        ensures !e[i].Present?
      {
        assert Kind(e[i]) != PRESENT;
      }
    }
  }

  // ----- sets -----

  lemma KeyIn<V>(e: Slots<V>, key: Key, value: V)
    requires Present(key, value) in e
    ensures key in KeysIn(e)
  {
    var i: nat :| i < |e| && e[i] == Present(key, value);
    assert e[i].key == key;
  }

  class U64Set {
    const table: U64HashTable<()>

    ghost predicate Valid()
      reads this, table, table.entries
    {
      table.Valid()
    }

    ghost function Elements(): set<Key>
      reads this, table
    {
      table.Contents.Keys
    }

    /** How many of the keys are not in the set. */
    ghost function Lacks(keys: set<Key>): nat
      reads this, table
    {
      |keys - Elements()|
    }

    /** These keys can be added: none is new, the next put grows the table, or there
        is room for the new ones. */
    ghost predicate Takes(keys: set<Key>)
      reads this, table, table.entries
    {
      keys <= Elements() || table.MustGrow() || table.Room(Lacks(keys))
    }

    constructor ()
      ensures Valid() && fresh(table) && fresh(table.entries) && Elements() == {} && table.entries.Length == 0
    {
      table := new U64HashTable<()>();
    }

    method Add(k: Key)
      requires Valid() && (table.MustGrow() || k in Elements() || table.Live())
      modifies table, table.entries
      ensures Valid() && Elements() == old(Elements()) + {k} && (table.entries == old(table.entries) || fresh(table.entries))
      ensures forall n: nat :: old(table.MustGrow() || table.Room(if k in Elements() then n else n + 1)) ==> table.Room(n)
    {
      hide TableOk, Filled;
      ghost var m, c, n := table.Contents, table.Empties(), table.Tombstones();
      ghost var was, grows := table.entries[..], table.MustGrow();
      var existed := table.Put(k, ());
      ghost var e :| Filled(e, m, k, (), table.entries[..])
                     && if grows then Grown(e, m, NewCapacity(|was|)) else e == was;
      FilledCounts(e, m, k, (), table.entries[..]);
    }

    method Contains(k: Key) returns (r: bool)
      requires Valid() && (Elements() == {} || k in Elements() || table.Live())
      ensures r <==> k in Elements()
    {
      if table.size > 0 { table.SomethingIn(); }
      r := table.Contains(k);
    }

    method Remove(k: Key)
      requires Valid() && (k in Elements() || table.Live())
      modifies table`size, table`Contents, table`removals, table.entries
      ensures Valid() && Elements() == old(Elements()) - {k} && (table.Live() <==> old(table.Live()))
    {
      table.Remove(k);
    }

    /** Add all elements of another set, for which there has to be room. */
    method Union(other: U64Set)
      requires Valid() && other.Valid() && other.table != table && other.table.entries != table.entries
      requires Takes(other.Elements())
      modifies table, table.entries
      ensures Valid() && Elements() == old(Elements()) + other.Elements() && other.Valid()
      ensures table.entries == old(table.entries) || fresh(table.entries)
    {
      hide TableOk, KeysIn, Count, U64HashTable.Valid, U64HashTable.Room, TableIterator.Valid, TableIterator.Returned, Takes;
      other.table.Keys();
      var it := new TableIterator<()>(other.table);
      AddAll(it);
    }

    method AddAll(it: TableIterator<()>)
      requires Valid() && it.Valid() && it.entries != table.entries && it.Returned() == {}
      requires Takes(KeysIn(it.entries[..]))
      modifies table, table.entries, it`currentIndex, it`nReturned
      ensures Valid() && (table.entries == old(table.entries) || fresh(table.entries))
      ensures Elements() == old(Elements()) + KeysIn(it.entries[..])
    {
      ghost var mine, theirs := Elements(), KeysIn(it.entries[..]);
      assert mine + {} == mine;
      hide TableOk, KeysIn, Count, U64HashTable.Valid, U64HashTable.Room, U64HashTable.Live, Elements, Takes,
           TableIterator.Returned;
      while it.HasNext()
        invariant Valid() && it.Valid() && it.entries != table.entries && KeysIn(it.entries[..]) == theirs
        invariant table.entries == old(table.entries) || fresh(table.entries)
        invariant Elements() == mine + it.Returned() && Takes(theirs)
        decreases it.size - it.nReturned
      {
        AddNext(it, mine, theirs);
      }
      it.AllReturned();
    }

    method AddNext(it: TableIterator<()>, ghost mine: set<Key>, ghost theirs: set<Key>)
      requires Valid() && it.Valid() && it.HasNext() && it.entries != table.entries && Elements() == mine + it.Returned()
      requires KeysIn(it.entries[..]) == theirs && Takes(theirs)
      modifies table, table.entries, it`currentIndex, it`nReturned
      ensures Valid() && it.Valid() && (table.entries == old(table.entries) || fresh(table.entries))
      ensures it.nReturned == old(it.nReturned) + 1 && Takes(theirs)
      ensures Elements() == mine + it.Returned()
    {
      hide TableOk, KeysIn, U64HashTable.Valid, U64HashTable.Room, U64HashTable.Live, Elements, Unique, Count,
           TableIterator.Returned;
      ghost var before, was := it.Returned(), Elements();
      var key, value := it.Next();
      assert key in theirs by { KeyIn(it.entries[..], key, value); }
      if table.Room(|theirs - was|) { table.RoomNow(|theirs - was|); }
      OneLess(theirs, was, key);
      Add(key);
      assert mine + before + {key} == mine + (before + {key});
    }

    /** Remove the elements of another set. */
    method Difference(other: U64Set)
      requires Valid() && other.Valid() && other.table != table && other.table.entries != table.entries
      requires table.Live() || other.Elements() <= Elements()
      modifies table, table.entries
      ensures Valid() && Elements() == old(Elements()) - other.Elements() && other.Valid()
      ensures table.Live() <==> old(table.Live())
    {
      var it := new TableIterator<()>(other.table);
      HeldKeys(other.table.entries[..], other.table.Contents);
      RemoveAll(it);
    }

    method RemoveAll(it: TableIterator<()>)
      requires Valid() && it.Valid() && it.entries != table.entries && it.Returned() == {}
      requires table.Live() || KeysIn(it.entries[..]) <= Elements()
      modifies table`size, table`Contents, table`removals, table.entries, it`currentIndex, it`nReturned
      ensures Valid() && Elements() == old(Elements()) - KeysIn(it.entries[..]) && (table.Live() <==> old(table.Live()))
    {
      ghost var mine, theirs, live := Elements(), KeysIn(it.entries[..]), table.Live();
      assert mine - {} == mine;
      hide TableOk, KeysIn, Count, U64HashTable.Valid, U64HashTable.Live, Elements, TableIterator.Returned;
      while it.HasNext()
        invariant Valid() && it.Valid() && it.Returned() <= theirs && KeysIn(it.entries[..]) == theirs
        invariant Elements() == mine - it.Returned() && table.Live() == live
        decreases it.size - it.nReturned
      {
        RemoveNext(it, mine, theirs);
      }
      it.AllReturned();
    }

    method RemoveNext(it: TableIterator<()>, ghost mine: set<Key>, ghost theirs: set<Key>)
      requires Valid() && it.Valid() && it.HasNext() && it.entries != table.entries
      requires KeysIn(it.entries[..]) == theirs && it.Returned() <= theirs
      requires Elements() == mine - it.Returned() && (table.Live() || theirs <= mine)
      modifies table`size, table`Contents, table`removals, table.entries, it`currentIndex, it`nReturned
      ensures Valid() && it.Valid() && it.nReturned == old(it.nReturned) + 1 && it.Returned() <= theirs
      ensures Elements() == mine - it.Returned() && (table.Live() <==> old(table.Live()))
    {
      hide TableOk, KeysIn, Count, U64HashTable.Valid, U64HashTable.Live, Elements, TableIterator.Returned;
      ghost var before := it.Returned();
      var key, value := it.Next();
      assert key in theirs by { KeyIn(it.entries[..], key, value); }
      Remove(key);
      assert (mine - before) - {key} == mine - (before + {key});
    }

    /** Whether all elements of `b` are in `a`. */
    static method IsSubset(a: U64Set, b: U64Set) returns (r: bool)
      requires a.Valid() && b.Valid() && (a.Elements() == {} || b.Elements() <= a.Elements() || a.table.Live())
      ensures r <==> b.Elements() <= a.Elements()
    {
      var it := new TableIterator<()>(b.table);
      HeldKeys(b.table.entries[..], b.table.Contents);
      while it.HasNext()
        invariant it.Valid() && it.entries == b.table.entries && it.Returned() <= a.Elements()
        decreases it.size - it.nReturned
      {
        var key, value := it.Next();
        KeyIn(it.entries[..], key, value);
        var there := a.Contains(key);
        if !there {
          return false;
        }
      }
      it.AllReturned();
      r := true;
    }

    static method Clone(from: U64Set) returns (cloned: U64Set)
      requires from.Valid()
      ensures cloned.Valid() && fresh(cloned) && fresh(cloned.table) && fresh(cloned.table.entries)
      ensures cloned.Elements() == from.Elements()
    {
      cloned := new U64Set();
      cloned.Union(from);
    }
  }

  lemma OneLess(theirs: set<Key>, mine: set<Key>, key: Key)
    requires key in theirs
    ensures |theirs - mine| == |theirs - (mine + {key})| + if key in mine then 0 else 1
  {
    if key in mine {
      assert mine + {key} == mine;
    } else {
      assert theirs - mine == (theirs - (mine + {key})) + {key};
    }
  }
}

/** The bounded LRU cache over a write-once space, with optional expiry of cached writes, and the steps
    of its callers over a backing space whose entries may expire and be written again. */
module CachingSpace {
  import opened Bus

  type Value = seq<bv8>
  datatype Key = Key(space: string, address: nat)
  datatype Slot = Slot(key: Key, value: Value, expires: Option<nat>)
  datatype Limits = Limits(entries: nat, bytes: nat, entryBytes: nat) {
    predicate Disabled() { entries == 0 || bytes == 0 || entryBytes == 0 }
    /** An LRU holds at least one entry. */
    function Capacity(): nat { if entries == 0 then 1 else entries }
  }

  // ---- the cache on values; `values` runs from least to most recently used ----

  function Size(values: seq<Slot>): nat {
    if values == [] then 0 else |values[0].value| + Size(values[1..])
  }

  predicate Contains(values: seq<Slot>, key: Key) {
    exists i :: 0 <= i < |values| && values[i].key == key
  }

  ghost predicate DistinctKeys(values: seq<Slot>) {
    forall i, j :: 0 <= i < j < |values| ==> values[i].key != values[j].key
  }

  /** The byte count is exact and every limit holds. */
  ghost predicate Bounded(values: seq<Slot>, bytes: nat, limits: Limits) {
    && bytes == Size(values)
    && DistinctKeys(values)
    && |values| <= limits.entries && bytes <= limits.bytes
    && (forall i :: 0 <= i < |values| ==> |values[i].value| <= limits.entryBytes)
    && (limits.Disabled() ==> values == [])
  }

  /** `get` moves a found entry to the most recently used end. */
  function Touched(values: seq<Slot>, i: nat): seq<Slot>
    requires i < |values|
  {
    values[..i] + values[i + 1..] + [values[i]]
  }

  /** Whether an insert takes effect. */
  predicate Admits(values: seq<Slot>, limits: Limits, slot: Slot) {
    !limits.Disabled() && |slot.value| <= limits.bytes && |slot.value| <= limits.entryBytes
        && !Contains(values, slot.key)
  }

  predicate Fits(values: seq<Slot>, limits: Limits, slot: Slot) {
    Size(values) + |slot.value| <= limits.bytes && |values| + 1 <= limits.Capacity()
  }

  /** How many least recently used entries an admitted insert evicts: as few as fit. */
  function Evictions(values: seq<Slot>, limits: Limits, slot: Slot): nat
    decreases |values|
  {
    if values == [] || Fits(values, limits, slot) then 0 else 1 + Evictions(values[1..], limits, slot)
  }

  function Inserted(values: seq<Slot>, limits: Limits, slot: Slot): seq<Slot> {
    var k := Evictions(values, limits, slot);
    if Admits(values, limits, slot) && k <= |values| then values[k..] + [slot] else values
  }

  /** The byte count after the same insert: each eviction subtracts, the new value adds. */
  function InsertedBytes(values: seq<Slot>, bytes: nat, limits: Limits, slot: Slot): nat {
    var k := Evictions(values, limits, slot);
    if Admits(values, limits, slot) && k <= |values| && Size(values[..k]) <= bytes + |slot.value|
    then bytes + |slot.value| - Size(values[..k])
    else bytes
  }

  lemma {:induction false} SizeAppend(a: seq<Slot>, b: seq<Slot>)
    ensures Size(a + b) == Size(a) + Size(b)
  {
    if a != [] {
      assert (a + b)[1..] == a[1..] + b;
      SizeAppend(a[1..], b);
    } else {
      assert a + b == b;
    }
  }

  /** Evictions is the least number that makes room. */
  lemma {:induction false} EvictionsLeast(values: seq<Slot>, limits: Limits, slot: Slot)
    requires |slot.value| <= limits.bytes
    ensures var k := Evictions(values, limits, slot);
            && k <= |values| && Fits(values[k..], limits, slot)
            && forall k' :: 0 <= k' < k ==> !Fits(values[k'..], limits, slot)
    decreases |values|
  {
    if values != [] && !Fits(values, limits, slot) {
      EvictionsLeast(values[1..], limits, slot);
      var k := Evictions(values, limits, slot);
      assert values[1..][k - 1..] == values[k..];
      forall k' | 0 <= k' < k
        ensures !Fits(values[k'..], limits, slot)
      {
        if k' > 0 {
          assert values[1..][k' - 1..] == values[k'..];
        }
      }
    }
  }

  lemma InsertKeepsBounds(values: seq<Slot>, bytes: nat, limits: Limits, slot: Slot)
    requires Bounded(values, bytes, limits)
    ensures Bounded(Inserted(values, limits, slot), InsertedBytes(values, bytes, limits, slot), limits)
  {
    if Admits(values, limits, slot) {
      EvictionsLeast(values, limits, slot);
      var k := Evictions(values, limits, slot);
      SizeAppend(values[k..], [slot]);
      assert Size([slot]) == |slot.value|;
      SizeAppend(values[..k], values[k..]);
      assert values == values[..k] + values[k..];
    }
  }

  lemma TouchKeepsSize(values: seq<Slot>, i: nat)
    requires i < |values|
    ensures Size(Touched(values, i)) == Size(values)
  {
    hide Size;
    var a, b, c := values[..i], [values[i]], values[i + 1..];
    assert Touched(values, i) == a + c + b;
    assert values == a + (b + c);
    SizeAppend(a, b + c);
    SizeAppend(b, c);
    SizeAppend(a + c, b);
    SizeAppend(a, c);
  }

  lemma TouchKeepsBounds(values: seq<Slot>, bytes: nat, limits: Limits, i: nat)
    requires Bounded(values, bytes, limits) && i < |values|
    ensures Bounded(Touched(values, i), bytes, limits)
  {
    hide Size;
    TouchKeepsSize(values, i);
  }

  lemma TouchKeepsMembers(values: seq<Slot>, i: nat)
    requires i < |values|
    ensures forall s :: s in Touched(values, i) <==> s in values
  {
    assert values == values[..i] + [values[i]] + values[i + 1..];
  }

  lemma InsertMembers(values: seq<Slot>, limits: Limits, slot: Slot)
    ensures forall s :: s in Inserted(values, limits, slot) ==> s in values || s == slot
  {
  }

  /** Whether a cached entry may answer a read; the clock is consulted only under a write TTL. */
  predicate Answers(slot: Slot, ttl: Option<nat>, now: nat) {
    slot.expires.Some? && ttl.Some? ==> now < slot.expires.value
  }

  // ---- recency ----

  /** When `key` was last used in a history of inserts and found lookups; -1 if never. */
  ghost function LastUse(uses: seq<Key>, key: Key): (i: int)
    ensures -1 <= i < |uses|
    ensures 0 <= i ==> uses[i] == key
    ensures forall j :: i < j < |uses| ==> uses[j] != key
  {
    if uses == [] then -1
    else if uses[|uses| - 1] == key then |uses| - 1
    else LastUse(uses[..|uses| - 1], key)
  }

  /** Entries stand in the order of their last use, the least recently used first. */
  ghost predicate ByRecency(values: seq<Slot>, uses: seq<Key>) {
    && (forall i :: 0 <= i < |values| ==> 0 <= LastUse(uses, values[i].key))
    && (forall i, j :: 0 <= i < j < |values| ==> LastUse(uses, values[i].key) < LastUse(uses, values[j].key))
  }

  lemma UseOf(uses: seq<Key>, used: Key, key: Key)
    ensures LastUse(uses + [used], key) == if used == key then |uses| else LastUse(uses, key)
  {
    assert (uses + [used])[..|uses|] == uses;
  }

  lemma TouchKeepsRecency(values: seq<Slot>, uses: seq<Key>, i: nat)
    requires ByRecency(values, uses) && DistinctKeys(values) && i < |values|
    ensures ByRecency(Touched(values, i), uses + [values[i].key])
  {
    hide LastUse;
    var key := values[i].key;
    forall j | 0 <= j < |values|
      ensures LastUse(uses + [key], values[j].key) == if j == i then |uses| else LastUse(uses, values[j].key)
    {
      UseOf(uses, key, values[j].key);
    }
  }

  lemma InsertKeepsRecency(values: seq<Slot>, uses: seq<Key>, limits: Limits, slot: Slot)
    requires ByRecency(values, uses) && Admits(values, limits, slot)
    ensures ByRecency(Inserted(values, limits, slot), uses + [slot.key])
  {
    hide LastUse, Evictions;
    forall j | 0 <= j < |values|
      ensures LastUse(uses + [slot.key], values[j].key) == LastUse(uses, values[j].key) && values[j].key != slot.key
    {
      UseOf(uses, slot.key, values[j].key);
    }
    UseOf(uses, slot.key, slot.key);
  }

  /** Whatever an insert evicts was last used before everything that stays. */
  lemma EvictsLeastRecent(values: seq<Slot>, uses: seq<Key>, limits: Limits, slot: Slot, gone: Slot, kept: Slot)
    requires ByRecency(values, uses) && Admits(values, limits, slot)
    requires gone in values && gone !in Inserted(values, limits, slot) && kept in Inserted(values, limits, slot)
    ensures LastUse(uses + [slot.key], gone.key) < LastUse(uses + [slot.key], kept.key)
  {
    hide LastUse, Evictions;
    var k := Evictions(values, limits, slot);
    var g :| 0 <= g < |values| && values[g] == gone;
    UseOf(uses, slot.key, gone.key);
    UseOf(uses, slot.key, kept.key);
    GoneIsBelow(values, limits, slot, g);
  }

  lemma GoneIsBelow(values: seq<Slot>, limits: Limits, slot: Slot, g: nat)
    requires g < |values| && values[g] !in Inserted(values, limits, slot) && Admits(values, limits, slot)
    requires Evictions(values, limits, slot) <= |values|
    ensures g < Evictions(values, limits, slot)
  {
    hide Evictions;
    var k := Evictions(values, limits, slot);
    assert forall i :: k <= i < |values| ==> values[i] in values[k..];
  }

  class Cache {
    var writeTtl: Option<nat>
    var values: seq<Slot>
    var valueBytes: nat
    const limits: Limits
    ghost var uses: seq<Key>

    ghost predicate Valid()
      reads this
    {
      Bounded(values, valueBytes, limits) && ByRecency(values, uses)
    }

    constructor (limits: Limits)
      ensures Valid() && values == [] && writeTtl == None && this.limits == limits
    {
      this.limits := limits;
      writeTtl, values, valueBytes, uses := None, [], 0, [];
    }

    method WithWriteTtl(ttl: nat)
      modifies this
      ensures Valid() && values == [] && writeTtl == Some(ttl) && uses == old(uses)
    {
      writeTtl, values, valueBytes := Some(ttl), [], 0;
    }

    method Find(key: Key) returns (i: nat)
      ensures i <= |values|
      ensures i < |values| ==> values[i].key == key
      ensures i == |values| <==> !Contains(values, key)
    {
      i := 0;
      while i < |values| && values[i].key != key
        invariant i <= |values|
        invariant forall j :: 0 <= j < i ==> values[j].key != key
      {
        i := i + 1;
      }
    }

    /** A hit or an expired find refreshes the entry; only a live one is returned. */
    method Get(key: Key, now: nat) returns (r: Option<Value>)
      requires Valid()
      modifies this`values, this`uses
      ensures Valid() && (forall s :: s in values <==> s in old(values))
      ensures r.Some? <==>
              exists s :: s in values && s.key == key && (writeTtl.None? || s.expires.None? || now < s.expires.value)
      ensures forall s :: s in values && s.key == key && r.Some? ==> r == Some(s.value)
      ensures !(exists s :: s in old(values) && s.key == key) ==> values == old(values) && uses == old(uses)
      ensures (exists s :: s in old(values) && s.key == key) ==>
              && uses == old(uses) + [key]
              && exists i ::
                 && 0 <= i < |old(values)| && old(values)[i].key == key
                 && values == old(values)[..i] + old(values)[i + 1..] + [old(values)[i]]
    {
      var i := Find(key);
      if i == |values| {
        assert forall s :: s in values ==> s.key != key;
        return None;
      }
      var slot := values[i];
      TouchKeepsBounds(values, valueBytes, limits, i);
      TouchKeepsMembers(values, i);
      OneSlotPerKey(values, slot);
      TouchKeepsRecency(values, uses, i);
      uses := uses + [key];
      values := Touched(values, i);
      r := if Answers(slot, writeTtl, now) then Some(slot.value) else None;
    }

    /** Inserted or left alone, by the limits and the key alone; what goes was last used before all that stays. */
    method Insert(slot: Slot)
      requires Valid()
      modifies this`values, this`valueBytes, this`uses
      ensures Valid() && values == Inserted(old(values), limits, slot)
      ensures var fits := && limits.entries > 0 && limits.bytes > 0 && limits.entryBytes > 0
                          && |slot.value| <= limits.bytes && |slot.value| <= limits.entryBytes
                          && forall s :: s in old(values) ==> s.key != slot.key;
              && (fits ==> uses == old(uses) + [slot.key] && values != [] && values[|values| - 1] == slot)
              && (!fits ==> uses == old(uses) && values == old(values))
      ensures forall gone, kept :: gone in old(values) && gone !in values && kept in values ==>
                LastUse(uses, gone.key) < LastUse(uses, kept.key)
      ensures valueBytes == InsertedBytes(old(values), old(valueBytes), limits, slot)
    {
      hide Bounded, ByRecency, Inserted, InsertedBytes, Evictions, LastUse;
      var admitted := Evict(slot);
      assert admitted <==> Admits(old(values), limits, slot);
      NoSuchKey(old(values), slot.key);
      if admitted {
        InsertKeepsRecency(old(values), uses, limits, slot);
        forall gone, kept | gone in old(values) && gone !in values && kept in values
          ensures LastUse(uses + [slot.key], gone.key) < LastUse(uses + [slot.key], kept.key)
        {
          EvictsLeastRecent(old(values), uses, limits, slot, gone, kept);
        }
        uses := uses + [slot.key];
      }
    }

    /** The insert itself: evict from the least recently used end until the value fits, then push it. */
    method Evict(slot: Slot) returns (admitted: bool)
      requires Bounded(values, valueBytes, limits)
      modifies this`values, this`valueBytes
      ensures Bounded(values, valueBytes, limits) && values == Inserted(old(values), limits, slot)
      ensures valueBytes == InsertedBytes(old(values), old(valueBytes), limits, slot)
      ensures admitted <==> Admits(old(values), limits, slot)
      ensures admitted ==> values != [] && values[|values| - 1] == slot
      ensures !admitted ==> values == old(values)
    {
      hide Bounded, DistinctKeys;
      InsertKeepsBounds(values, valueBytes, limits, slot);
      BoundedBytes(values, valueBytes, limits);
      var found := Find(slot.key);
      if limits.Disabled() || |slot.value| > limits.bytes || |slot.value| > limits.entryBytes || found < |values| {
        return false;
      }
      EvictionsLeast(values, limits, slot);
      ghost var k := Evictions(values, limits, slot);
      ghost var evicted: nat := 0;
      while |slot.value| > (if valueBytes > limits.bytes then 0 else limits.bytes - valueBytes)
        invariant evicted <= k && values == old(values)[evicted..] && valueBytes == Size(values) <= limits.bytes
        decreases |values|
      {
        if values == [] {
          return false;
        }
        assert !Fits(old(values)[evicted..], limits, slot);
        valueBytes := valueBytes - |values[0].value|;
        values := values[1..];
        evicted := evicted + 1;
      }
      valueBytes := valueBytes + |slot.value|;
      if |values| == limits.Capacity() {
        assert !Fits(old(values)[evicted..], limits, slot);
        valueBytes := valueBytes - |values[0].value|;
        values := values[1..];
        evicted := evicted + 1;
      }
      assert evicted == k;
      SizeAppend(values, [slot]);
      values := values + [slot];
      return true;
    }
  }

  lemma BoundedBytes(values: seq<Slot>, bytes: nat, limits: Limits)
    requires Bounded(values, bytes, limits)
    ensures bytes == Size(values) <= limits.bytes && |values| <= limits.entries
  {
  }

  lemma NoSuchKey(values: seq<Slot>, key: Key)
    ensures Contains(values, key) <==> exists s :: s in values && s.key == key
  {
    if Contains(values, key) {
      var i :| 0 <= i < |values| && values[i].key == key;
      assert values[i] in values;
    }
  }

  lemma OneSlotPerKey(values: seq<Slot>, slot: Slot)
    requires DistinctKeys(values) && slot in values
    ensures forall s :: s in values && s.key == slot.key ==> s == slot
  {
  }
}

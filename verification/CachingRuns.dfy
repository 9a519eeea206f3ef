/** Callers of the caching write-once space, one step per backing call, while time passes and the backing
    space expires entries. */
module CachingRuns {
  import opened Bus
  import opened CachingSpace

  /** Backing entry; live until its deadline, forever without one. */
  datatype Stored = Stored(value: Value, deadline: Option<nat>)

  datatype Op =
    | Writing(key: Key, value: Value, begun: nat, expires: Option<nat>)
    | Confirmed(key: Key, value: Value, expires: Option<nat>)
    | Reading(key: Key)
    | Fetched(key: Key, value: Value)
    | Wrote(ok: bool)
    | Answered(key: Key, result: Option<Value>)

  datatype State = State(
    now: nat,
    backingTtl: Option<nat>,
    backing: map<Key, Stored>,
    writeTtl: Option<nat>,
    values: seq<Slot>,
    bytes: nat,
    limits: Limits,
    ops: map<nat, Op>)

  /** `since` is when the backing space starts the TTL of a write, `applied` whether a failed write took effect. */
  datatype Step =
    | Tick(elapsed: nat)
    | WriteStart(id: nat, key: Key, value: Value)
    | BackingWrite(id: nat, since: nat)
    | BackingFail(id: nat, since: nat, applied: bool)
    | OtherWrite(key: Key, value: Value, since: nat)
    | CacheWrite(id: nat)
    | ReadStart(id: nat, key: Key, index: nat)
    | BackingRead(id: nat)
    | CacheRead(id: nat)
    | Configure(ttl: nat)

  predicate Live(s: State, key: Key) {
    key in s.backing && (s.backing[key].deadline.Some? ==> s.now < s.backing[key].deadline.value)
  }

  /** What a read of the backing space returns now. */
  function Backing(s: State, key: Key): Option<Value> {
    if Live(s, key) then Some(s.backing[key].value) else None
  }

  function Deadline(s: State, since: nat): Option<nat> {
    if s.backingTtl.Some? then Some(since + s.backingTtl.value) else None
  }

  /** The cached write deadline, taken when the write starts. */
  function Expiry(s: State): Option<nat> {
    if s.writeTtl.Some? then Some(s.now + s.writeTtl.value) else None
  }

  /** The cache after an insert, its byte count included. */
  function Insert(s: State, slot: Slot): State {
    s.(values := Inserted(s.values, s.limits, slot), bytes := InsertedBytes(s.values, s.bytes, s.limits, slot))
  }

  function Put(s: State, key: Key, value: Value, since: nat): State {
    s.(backing := s.backing[key := Stored(value, Deadline(s, since))])
  }

  /** Whether the entry at `index` answers a lookup of `key`. */
  predicate Hits(s: State, key: Key, index: nat) {
    index < |s.values| && s.values[index].key == key && Answers(s.values[index], s.writeTtl, s.now)
  }

  predicate Enabled(s: State, step: Step) {
    match step
    case Tick(_) => true
    case WriteStart(id, _, _) => id !in s.ops
    case BackingWrite(id, since) =>
        id in s.ops && s.ops[id].Writing? && s.ops[id].begun <= since
        && !Live(s, s.ops[id].key)
    case BackingFail(id, since, applied) => id in s.ops && s.ops[id].Writing? && (applied ==> !Live(s, s.ops[id].key))
    case OtherWrite(key, _, _) => !Live(s, key)
    case CacheWrite(id) => id in s.ops && s.ops[id].Confirmed?
    case ReadStart(id, key, index) =>
      id !in s.ops && (if index < |s.values| then s.values[index].key == key else !Contains(s.values, key))
    case BackingRead(id) => id in s.ops && s.ops[id].Reading?
    case CacheRead(id) => id in s.ops && s.ops[id].Fetched?
    case Configure(ttl) => s.backingTtl.Some? ==> ttl <= s.backingTtl.value
  }

  function Next(s: State, step: Step): State
    requires Enabled(s, step)
  {
    match step
    case Tick(elapsed) => s.(now := s.now + elapsed)
    case WriteStart(id, key, value) => s.(ops := s.ops[id := Writing(key, value, s.now, Expiry(s))])
    case BackingWrite(id, since) =>
      var op := s.ops[id];
      Put(s, op.key, op.value, since).(ops := s.ops[id := Confirmed(op.key, op.value, op.expires)])
    case BackingFail(id, since, applied) =>
      (if applied then Put(s, s.ops[id].key, s.ops[id].value, since) else s).(ops := s.ops[id := Wrote(false)])
    case OtherWrite(key, value, since) => Put(s, key, value, since)
    case CacheWrite(id) =>
      var op := s.ops[id];
      Insert(s, Slot(op.key, op.value, op.expires)).(ops := s.ops[id := Wrote(true)])
    case ReadStart(id, key, index) =>
      if index < |s.values| then
        var slot := s.values[index];
        s.(values := Touched(s.values, index),
           ops := s.ops[id := if Answers(slot, s.writeTtl, s.now) then Answered(key, Some(slot.value))
               else Reading(key)])
      else s.(ops := s.ops[id := Reading(key)])
    case BackingRead(id) =>
      var key := s.ops[id].key;
      s.(ops := s.ops[id := match Backing(s, key) case Some(v) => Fetched(key, v) case None => Answered(key, None)])
    case CacheRead(id) =>
      var op := s.ops[id];
      (if s.writeTtl.None? then Insert(s, Slot(op.key, op.value, None)) else s)
        .(ops := s.ops[id := Answered(op.key, Some(op.value))])
    case Configure(ttl) => s.(writeTtl := Some(ttl), values := [], bytes := 0)
  }

  // ---- the invariant ----

  /** Until `expires` passes, the backing space holds `value` at `key` and will keep it that long. */
  ghost predicate Backed(s: State, key: Key, value: Value, expires: Option<nat>) {
    match expires
    case None => s.backingTtl.None? && key in s.backing && s.backing[key] == Stored(value, None)
    case Some(e) =>
      && s.writeTtl.Some?
      && (s.now < e ==>
          key in s.backing && s.backing[key].value == value
          && (s.backing[key].deadline.Some? ==> e <= s.backing[key].deadline.value))
  }

  /** Values too large for the cache, or for any cache that is switched off, are never inserted. */
  predicate Cacheable(limits: Limits, value: Value) {
    !limits.Disabled() && |value| <= limits.bytes && |value| <= limits.entryBytes
  }

  /** What a write that may be cached needs: a deadline no later than the backing one, if that space expires entries. */
  ghost predicate OpInv(s: State, op: Op) {
    match op
    case Writing(_, value, begun, expires) =>
      Cacheable(s.limits, value) ==>
        && (expires.None? ==> s.backingTtl.None?)
        && (expires.Some? ==> s.writeTtl.Some? && (s.backingTtl.Some? ==> expires.value <= begun + s.backingTtl.value))
    case Confirmed(key, value, expires) => Cacheable(s.limits, value) ==> Backed(s, key, value, expires)
    case Reading(_) => true
    case Fetched(key, value) => s.writeTtl.None? ==> Backed(s, key, value, None)
    case Wrote(_) => true
    case Answered(_, _) => true
  }

  /** Over an expiring backing space the cache runs with a write TTL no longer than the backing one. */
  predicate Suited(s: State) {
    s.backingTtl.Some? ==> s.writeTtl.Some? && s.writeTtl.value <= s.backingTtl.value
  }

  ghost predicate Uniform(s: State) {
    s.backingTtl.None? ==> forall key :: key in s.backing ==> s.backing[key].deadline.None?
  }

  ghost predicate Inv(s: State) {
    && Suited(s) && Uniform(s)
    && Bounded(s.values, s.bytes, s.limits)
    && (forall slot :: slot in s.values ==> Backed(s, slot.key, slot.value, slot.expires))
    && (forall id :: id in s.ops ==> OpInv(s, s.ops[id]))
  }

  /** The cache agrees with the backing space: whatever a lookup would answer, the backing space would too. */
  ghost predicate Coherent(s: State) {
    forall slot :: slot in s.values && Answers(slot, s.writeTtl, s.now) ==> Backing(s, slot.key) == Some(slot.value)
  }

  lemma InvIsCoherent(s: State)
    requires Inv(s)
    ensures Coherent(s)
  {
    hide Bounded, Size, OpInv;
  }

  // ---- what each step keeps ----

  /** Time passing and writes to addresses that are not live disturb nothing that is backed. */
  ghost predicate Keeps(s: State, s': State) {
    && s.now <= s'.now && s'.backingTtl == s.backingTtl && s'.limits == s.limits
    && (s.writeTtl.Some? ==> s'.writeTtl.Some?)
    && forall key :: Live(s, key) ==> key in s'.backing && s'.backing[key] == s.backing[key]
  }

  lemma BackedKept(s: State, s': State, key: Key, value: Value, expires: Option<nat>)
    requires Keeps(s, s') && Backed(s, key, value, expires)
    ensures Backed(s', key, value, expires)
  {
    if expires.None? || s'.now < expires.value {
      assert Live(s, key);
    }
  }

  lemma OpKept(s: State, s': State, op: Op)
    requires Keeps(s, s') && OpInv(s, op)
    ensures OpInv(s', op)
  {
    hide Backed, Live;
    match op
    case Confirmed(key, value, expires) =>
      if Cacheable(s.limits, value) {
        BackedKept(s, s', key, value, expires);
      }
    case Fetched(key, value) =>
      if s'.writeTtl.None? {
        BackedKept(s, s', key, value, None);
      }
    case _ =>
  }

  /** A step that keeps the backing space, with the cache's new slots and the moved caller justified. */
  lemma CarryInv(s: State, s': State, id: nat)
    requires Keeps(s, s')
    requires Suited(s') && Uniform(s') && Bounded(s'.values, s'.bytes, s'.limits)
    requires forall slot :: slot in s'.values ==> slot in s.values || Backed(s', slot.key, slot.value, slot.expires)
    requires id in s'.ops ==> OpInv(s', s'.ops[id])
    requires forall i :: i in s'.ops && i != id ==> i in s.ops && s'.ops[i] == s.ops[i]
    requires Inv(s)
    ensures Inv(s')
  {
    hide Backed, OpInv, Bounded, Size, Keeps, Live, Suited, Uniform;
    forall slot | slot in s'.values
      ensures Backed(s', slot.key, slot.value, slot.expires)
    {
      if slot in s.values {
        BackedKept(s, s', slot.key, slot.value, slot.expires);
      }
    }
    forall i | i in s'.ops
      ensures OpInv(s', s'.ops[i])
    {
      if i != id {
        OpKept(s, s', s.ops[i]);
      }
    }
  }

  /** Steps that write the backing space. */
  lemma WriteStepKeepsInv(s: State, step: Step)
    requires (step.BackingWrite? || step.BackingFail? || step.OtherWrite?) && Enabled(s, step) && Inv(s)
    ensures Inv(Next(s, step))
  {
    hide Bounded, Size;
    var s' := Next(s, step);
    var id := if step.BackingWrite? || step.BackingFail? then step.id else 0;
    if id in s.ops {
      assert OpInv(s, s.ops[id]);
    }
    assert Keeps(s, s');
    if step.OtherWrite? && id in s.ops {
      OpKept(s, s', s.ops[id]);
    }
    CarryInv(s, s', id);
  }

  /** An insert adds its slot only when the value is cacheable. */
  lemma InsertsCacheable(values: seq<Slot>, limits: Limits, slot: Slot)
    ensures forall x :: x in Inserted(values, limits, slot) ==>
        x in values || (x == slot && Cacheable(limits, slot.value))
  {
    InsertMembers(values, limits, slot);
  }

  /** Steps that insert into the cache. */
  lemma InsertStepKeepsInv(s: State, step: Step)
    requires (step.CacheWrite? || step.CacheRead?) && Enabled(s, step) && Inv(s)
    ensures Inv(Next(s, step))
  {
    hide Size, Bounded, Inserted, InsertedBytes;
    var s' := Next(s, step);
    var op := s.ops[step.id];
    assert OpInv(s, op);
    var slot := Slot(op.key, op.value, if step.CacheWrite? then op.expires else None);
    InsertKeepsBounds(s.values, s.bytes, s.limits, slot);
    InsertsCacheable(s.values, s.limits, slot);
    CarryInv(s, s', step.id);
  }

  /** Steps that start an operation or read the backing space. */
  lemma ReadStepKeepsInv(s: State, step: Step)
    requires (step.WriteStart? || step.ReadStart? || step.BackingRead?) && Enabled(s, step) && Inv(s)
    ensures Inv(Next(s, step))
  {
    hide Size, Bounded;
    var s' := Next(s, step);
    if step.ReadStart? && step.index < |s.values| {
      TouchKeepsBounds(s.values, s.bytes, s.limits, step.index);
      TouchKeepsMembers(s.values, step.index);
    }
    CarryInv(s, s', step.id);
  }

  lemma EmptyIsBounded(limits: Limits)
    ensures Bounded([], 0, limits)
  {
  }

  lemma OtherStepKeepsInv(s: State, step: Step)
    requires (step.Tick? || step.Configure?) && Enabled(s, step) && Inv(s)
    ensures Inv(Next(s, step))
  {
    hide Size, Bounded, Backed;
    var s' := Next(s, step);
    EmptyIsBounded(s.limits);
    if 0 in s.ops {
      OpKept(s, s', s.ops[0]);
    }
    CarryInv(s, s', 0);
  }

  lemma StepKeepsInv(s: State, step: Step)
    requires Enabled(s, step) && Inv(s)
    ensures Inv(Next(s, step))
  {
    hide *;
    match step
    case BackingWrite(_, _) => WriteStepKeepsInv(s, step);
    case BackingFail(_, _, _) => WriteStepKeepsInv(s, step);
    case OtherWrite(_, _, _) => WriteStepKeepsInv(s, step);
    case CacheWrite(_) => InsertStepKeepsInv(s, step);
    case CacheRead(_) => InsertStepKeepsInv(s, step);
    case Tick(_) => OtherStepKeepsInv(s, step);
    case Configure(_) => OtherStepKeepsInv(s, step);
    case _ => ReadStepKeepsInv(s, step);
  }

  // ---- runs ----

  /** A new cache over any backing space, already given a write TTL if that space expires entries. */
  ghost predicate Init(s: State) {
    s.values == [] && s.bytes == 0 && s.ops == map[] && Suited(s) && Uniform(s)
  }

  ghost predicate IsRun(states: seq<State>, steps: seq<Step>) {
    IsPath(states, steps) && Init(states[0])
  }

  /** Steps from any first state. */
  ghost predicate IsPath(states: seq<State>, steps: seq<Step>) {
    && |states| == |steps| + 1
    && forall i {:trigger steps[i]} :: 0 <= i < |steps| ==>
        Enabled(states[i], steps[i]) && states[i + 1] == Next(states[i], steps[i])
  }

  lemma {:induction false} PathKeepsInv(states: seq<State>, steps: seq<Step>, n: nat)
    requires IsPath(states, steps) && Inv(states[0]) && n <= |steps|
    ensures Inv(states[n])
  {
    hide Next, Enabled, Inv;
    if n > 0 {
      PathKeepsInv(states, steps, n - 1);
      assert steps[n - 1] == steps[n - 1];
      StepKeepsInv(states[n - 1], steps[n - 1]);
    }
  }

  lemma RunKeepsInv(states: seq<State>, steps: seq<Step>, n: nat)
    requires IsRun(states, steps) && n <= |steps|
    ensures Inv(states[n])
  {
    hide Next, Enabled, Backed, OpInv, Suited, Uniform, Bounded;
    EmptyIsBounded(states[0].limits);
    PathKeepsInv(states, steps, n);
  }

  /** At some moment of read `id` (its lookup or its backing read) the backing space held `result` at `key`. */
  ghost predicate Witnessed(states: seq<State>, steps: seq<Step>, n: nat, id: nat, key: Key, result: Option<Value>)
    requires n <= |steps| < |states|
  {
    exists m ::
        0 <= m < n && (steps[m].BackingRead? || (steps[m].ReadStart? && steps[m].key == key))
        && steps[m].id == id && Backing(states[m], key) == result
  }

  function ResultOf(op: Op): Option<Value>
    requires op.Fetched? || op.Answered?
  {
    if op.Fetched? then Some(op.value) else op.result
  }

  /** A step that gives a read its result: a hit, or the backing read. */
  lemma ResultAppears(s: State, step: Step, id: nat)
    requires Inv(s) && Enabled(s, step) && id in Next(s, step).ops
    requires var op := Next(s, step).ops[id]; op.Fetched? || op.Answered?
    ensures var op := Next(s, step).ops[id];
            || (id in s.ops && (s.ops[id].Fetched? || s.ops[id].Answered?) && s.ops[id].key == op.key
                && ResultOf(s.ops[id]) == ResultOf(op))
            || ((step.BackingRead? || (step.ReadStart? && step.key == op.key)) && step.id == id
                && Backing(s, op.key) == ResultOf(op))
  {
    hide Inv, Inserted, Size;
    InvIsCoherent(s);
  }

  lemma {:induction false} ResultsAreWitnessed(states: seq<State>, steps: seq<Step>, n: nat, id: nat)
    requires IsRun(states, steps) && n <= |steps| && id in states[n].ops
    requires states[n].ops[id].Fetched? || states[n].ops[id].Answered?
    ensures Witnessed(states, steps, n, id, states[n].ops[id].key, ResultOf(states[n].ops[id]))
    decreases n
  {
    hide Next, Enabled, Inv, Backing;
    if n > 0 {
      var s, step, op := states[n - 1], steps[n - 1], states[n].ops[id];
      RunKeepsInv(states, steps, n - 1);
      ResultAppears(s, step, id);
      if id in s.ops && (s.ops[id].Fetched? || s.ops[id].Answered?) && s.ops[id].key == op.key
          && ResultOf(s.ops[id]) == ResultOf(op) {
        ResultsAreWitnessed(states, steps, n - 1, id);
        var m :| 0 <= m < n - 1 && (steps[m].BackingRead? || (steps[m].ReadStart? && steps[m].key == op.key))
            && steps[m].id == id && Backing(states[m], op.key) == ResultOf(op);
        assert Witnessed(states, steps, n, id, op.key, ResultOf(op));
      }
    }
  }

  /** Whatever a read of the caching space returns is what the backing space held at some moment of that read. */
  lemma ReadReturnsBacking(states: seq<State>, steps: seq<Step>, n: nat, id: nat)
    requires IsRun(states, steps) && n <= |steps| && id in states[n].ops && states[n].ops[id].Answered?
    ensures Witnessed(states, steps, n, id, states[n].ops[id].key, states[n].ops[id].result)
  {
    hide IsRun, Witnessed;
    ResultsAreWitnessed(states, steps, n, id);
  }

  /** A lookup that would be answered agrees with the backing space, in every reachable state. */
  lemma HitsMatchBacking(states: seq<State>, steps: seq<Step>, n: nat, key: Key, index: nat)
    requires IsRun(states, steps) && n <= |steps| && Hits(states[n], key, index)
    ensures Backing(states[n], key) == Some(states[n].values[index].value)
  {
    hide Inv, Next, Enabled, Backing;
    RunKeepsInv(states, steps, n);
    InvIsCoherent(states[n]);
  }

  /** The byte count is exact and every limit holds, in every reachable state. */
  lemma LimitsHold(states: seq<State>, steps: seq<Step>, n: nat)
    requires IsRun(states, steps) && n <= |steps|
    ensures Bounded(states[n].values, states[n].bytes, states[n].limits)
  {
    hide Inv, Next, Enabled, Bounded;
    RunKeepsInv(states, steps, n);
    InvIsBounded(states[n]);
  }

  lemma InvIsBounded(s: State)
    requires Inv(s)
    ensures Bounded(s.values, s.bytes, s.limits)
  {
  }

  // ---- what the cache is for ----

  /** A write carries the deadline of its start; once confirmed and cached it answers lookups with its value,
      without the backing space, until that deadline. */
  lemma CachedWriteAnswers(s: State, id: nat, reader: nat)
    requires id in s.ops && s.ops[id].Confirmed? && Cacheable(s.limits, s.ops[id].value)
    requires !(exists slot :: slot in s.values && slot.key == s.ops[id].key)
    requires reader !in s.ops
    ensures var op := s.ops[id];
            var cached := Next(s, CacheWrite(id));
            var index := |cached.values| - 1;
            && index >= 0 && cached.values[index] == Slot(op.key, op.value, op.expires)
            && Enabled(cached, ReadStart(reader, op.key, index))
            && (op.expires.None? || s.writeTtl.None? || s.now < op.expires.value ==>
                  Next(cached, ReadStart(reader, op.key, index)).ops[reader] == Answered(op.key, Some(op.value)))
  {
    hide Size, InsertedBytes, Evictions;
    var op := s.ops[id];
    NoSuchKey(s.values, op.key);
    EvictionsLeast(s.values, s.limits, Slot(op.key, op.value, op.expires));
  }

  /** Without a write TTL a value fetched from the backing space is cached; with one it is not. */
  lemma FetchedIsCached(s: State, id: nat)
    requires id in s.ops && s.ops[id].Fetched? && Cacheable(s.limits, s.ops[id].value)
    requires !(exists slot :: slot in s.values && slot.key == s.ops[id].key)
    ensures var op, s' := s.ops[id], Next(s, CacheRead(id));
            && s'.ops[id] == Answered(op.key, Some(op.value))
            && (s.writeTtl.None? ==> s'.values != [] && s'.values[|s'.values| - 1] == Slot(op.key, op.value, None))
            && (s.writeTtl.Some? ==> s'.values == s.values && s'.bytes == s.bytes)
  {
    hide Size, InsertedBytes, Evictions;
    var op := s.ops[id];
    NoSuchKey(s.values, op.key);
    EvictionsLeast(s.values, s.limits, Slot(op.key, op.value, None));
  }

  lemma WriteDeadline(s: State, id: nat, key: Key, value: Value)
    requires id !in s.ops
    ensures var op := Next(s, WriteStart(id, key, value)).ops[id];
            && op.begun == s.now
            && (s.writeTtl.None? ==> op.expires.None?)
            && (s.writeTtl.Some? ==> op.expires == Some(s.now + s.writeTtl.value))
  {
  }

  // ---- turning the write TTL on in use ----

  /** The cache has run without a write TTL over a space that expires entries. */
  ghost predicate Unconfigured(s: State) {
    && s.backingTtl.Some? && s.writeTtl.None?
    && (forall key :: key in s.backing ==> s.backing[key].deadline.Some?)
    && (forall id :: id in s.ops && InFlight(s.ops[id]) ==> s.ops[id].expires.None?)
  }

  predicate InFlight(op: Op) {
    op.Writing? || op.Confirmed?
  }

  /** Such a state is what every step but `with_write_ttl` leads to from a new cache over such a space. */
  lemma UnconfiguredStays(s: State, step: Step)
    requires Unconfigured(s) && Enabled(s, step) && !step.Configure?
    ensures Unconfigured(Next(s, step))
  {
  }

  /** A lookup would be answered with something the backing space does not hold. */
  ghost predicate Stale(s: State) {
    exists key, index: nat :: Hits(s, key, index) && Backing(s, key) != Some(s.values[index].value)
  }

  ghost predicate CanGoStale(s: State) {
    exists states: seq<State>, steps: seq<Step> :: IsPath(states, steps) && states[0] == s && Stale(states[|steps|])
  }

  lemma InvIsNotStale(s: State)
    requires Inv(s)
    ensures !Stale(s)
  {
    hide Inv, Backing, Answers;
    InvIsCoherent(s);
    forall key, index: nat | Hits(s, key, index)
      ensures Backing(s, key) == Some(s.values[index].value)
    {
      assert s.values[index] in s.values;
    }
  }

  lemma InvNeverGoesStale(s: State)
    requires Inv(s)
    ensures !CanGoStale(s)
  {
    hide Inv, Next, Enabled, Stale;
    forall states: seq<State>, steps: seq<Step> | IsPath(states, steps) && states[0] == s
      ensures !Stale(states[|steps|])
    {
      PathKeepsInv(states, steps, |steps|);
      InvIsNotStale(states[|steps|]);
    }
  }

  lemma StaleNow(s: State)
    requires Stale(s)
    ensures CanGoStale(s)
  {
    hide Stale, Next, Enabled;
    var states: seq<State>, steps: seq<Step> := [s], [];
    assert IsPath(states, steps) && states[0] == s && Stale(states[|steps|]);
  }

  lemma StaleAfter(s: State, step: Step)
    requires Enabled(s, step) && CanGoStale(Next(s, step))
    ensures CanGoStale(s)
  {
    hide Stale, Next, Enabled;
    var states: seq<State>, steps: seq<Step> :| IsPath(states, steps) && states[0] == Next(s, step)
        && Stale(states[|steps|]);
    var states', steps' := [s] + states, [step] + steps;
    forall i {:trigger steps'[i]} | 0 <= i < |steps'|
      ensures Enabled(states'[i], steps'[i]) && states'[i + 1] == Next(states'[i], steps'[i])
    {
      if i > 0 {
        assert steps'[i] == steps[i - 1];
      }
    }
    assert IsPath(states', steps') && states'[0] == s && states'[|steps'|] == states[|steps|];
  }

  /** When the backing entry of `key` will be gone. */
  function Gone(s: State, key: Key): nat {
    if key in s.backing && s.backing[key].deadline.Some? then s.backing[key].deadline.value else 0
  }

  lemma EmptyCacheAdmits(limits: Limits, slot: Slot)
    requires Cacheable(limits, slot.value)
    ensures Inserted([], limits, slot) == [slot]
  {
  }

  /** A confirmed write without deadline, cached into the empty cache, outlives its backing entry. */
  lemma ConfirmedGoesStale(s: State, id: nat)
    requires s.values == [] && id in s.ops && s.ops[id].Confirmed? && s.ops[id].expires.None?
    requires Cacheable(s.limits, s.ops[id].value)
    requires s.ops[id].key in s.backing ==> s.backing[s.ops[id].key].deadline.Some?
    ensures CanGoStale(s)
  {
    hide CanGoStale, Inserted, InsertedBytes;
    var op := s.ops[id];
    var slot := Slot(op.key, op.value, None);
    EmptyCacheAdmits(s.limits, slot);
    var s1 := Next(s, CacheWrite(id));
    assert s1.values == [slot];
    var s2 := Next(s1, Tick(Gone(s, op.key)));
    assert Hits(s2, op.key, 0) && Backing(s2, op.key) == None;
    StaleNow(s2);
    StaleAfter(s1, Tick(Gone(s, op.key)));
    StaleAfter(s, CacheWrite(id));
  }

  /** A write still on its way gets there once its address is free. */
  lemma WritingGoesStale(s: State, id: nat)
    requires s.backingTtl.Some? && s.values == [] && id in s.ops && s.ops[id].Writing? && s.ops[id].expires.None?
    requires Cacheable(s.limits, s.ops[id].value)
    requires s.ops[id].key in s.backing ==> s.backing[s.ops[id].key].deadline.Some?
    ensures CanGoStale(s)
  {
    hide CanGoStale;
    var op := s.ops[id];
    var s1 := Next(s, Tick(Gone(s, op.key)));
    var s2 := Next(s1, BackingWrite(id, op.begun));
    ConfirmedGoesStale(s2, id);
    StaleAfter(s1, BackingWrite(id, op.begun));
    StaleAfter(s, Tick(Gone(s, op.key)));
  }

  lemma ConfiguredHolds(s: State, ttl: nat)
    requires Unconfigured(s) && Enabled(s, Configure(ttl))
    requires forall id :: id in s.ops && InFlight(s.ops[id]) ==> !Cacheable(s.limits, s.ops[id].value)
    ensures Inv(Next(s, Configure(ttl)))
  {
    hide Size, Bounded, Backed;
    EmptyIsBounded(s.limits);
  }

  /** Turning the write TTL on over an expiring space the cache already served: some run from there answers
      a lookup with a value the backing space no longer holds, if and only if a write of a value that fits
      the cache is in flight at that moment. Such a write is cached without a deadline. */
  lemma ConfigureInUseIff(s: State, ttl: nat)
    requires Unconfigured(s) && Enabled(s, Configure(ttl))
    ensures CanGoStale(Next(s, Configure(ttl))) <==>
            exists id :: id in s.ops && InFlight(s.ops[id]) && Cacheable(s.limits, s.ops[id].value)
  {
    hide CanGoStale, Inv;
    var s' := Next(s, Configure(ttl));
    if id :| id in s.ops && InFlight(s.ops[id]) && Cacheable(s.limits, s.ops[id].value) {
      if s.ops[id].Writing? {
        WritingGoesStale(s', id);
      } else {
        ConfirmedGoesStale(s', id);
      }
    } else {
      ConfiguredHolds(s, ttl);
      InvNeverGoesStale(s');
    }
  }

  /** The unsafe case at work: the late insert outlives the backing entry. */
  lemma LateInsertOutlivesBacking(key: Key, value: Value)
    requires |value| == 1
    ensures var s0 := State(0, Some(1), map[], None, [], 0, Limits(1, 1, 1), map[]);
            var s1 := Next(s0, WriteStart(0, key, value));
            && Enabled(s1, Configure(1))
            && var s2 := Next(s1, Configure(1));
            && Enabled(s2, BackingWrite(0, 0))
            && var s3 := Next(s2, BackingWrite(0, 0));
            && Enabled(s3, CacheWrite(0))
            && var s5 := Next(Next(s3, CacheWrite(0)), Tick(1));
            && Hits(s5, key, 0) && s5.values[0].value == value && Backing(s5, key) == None
  {
  }
}

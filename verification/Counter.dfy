/** A replicated counter over the log: its sequential specification, the client that replays the
    log, and the candidate order built from operation tags. */
module Counter {
  import opened Bus
  import opened History
  import opened Decider

  datatype CounterOutput = Value(value: int) | Denied

  type CounterObservation = Observation<CounterOperation, CounterOutput, int>

  /** Sequential specification: the state after an operation. */
  function Applied(value: int, op: CounterOperation): int {
    match op
    case Increment => value + 1
    case Decrement => value - 1
    case Read => value
  }

  /** Check an observed output against the specification and move on. */
  function VerifyAndApply(value: int, op: CounterOperation, observed: CounterOutput): Option<int> {
    match observed
    case Value(v) => if v == Applied(value, op) then Some(v) else None
    case Denied => if op.IsWrite() then Some(value) else None
  }

  // ---- the client's replay ----

  datatype View = View(value: int, buffered: map<int, CounterOperation>)

  datatype Completion = Completion(output: CounterOutput, tag: nat)

  datatype PollResult = Polled(completed: Option<Completion>) | PollFailed

  const Blank := View(0, map[])

  predicate IsCounterWrite(p: Payload) {
    p.Intention? && p.body.CounterBody? && p.body.operation.IsWrite()
  }

  /** Effect of one entry on the client's state, and the completion of the watched intention. */
  function ProcessEntry(v: View, position: nat, p: Payload, watched: Option<nat>): (View, Option<Completion>) {
    match p
    case Intention(_, _) =>
      (if IsCounterWrite(p) then v.(buffered := v.buffered[position as int := p.body.operation]) else v, None)
    case Commit(id, _) =>
      if id in v.buffered then
        var value := Applied(v.value, v.buffered[id]);
        (View(value, v.buffered - {id}), if watched.Some?
            && watched.value == id then Some(Completion(Value(value), position)) else None)
      else (v, None)
    case Abort(id, _) =>
      (v.(buffered := v.buffered - {id}), if watched.Some?
          && watched.value == id then Some(Completion(Denied, position)) else None)
    case _ => (v, None)
  }

  /** State of a client that has processed log[..n]. */
  function Replayed(log: seq<Payload>, n: nat): View
    requires n <= |log|
  {
    if n == 0 then Blank else ProcessEntry(Replayed(log, n - 1), n - 1, log[n - 1], None).0
  }

  /** Last completion of the watched intention among log[lo..hi). */
  function Completed(log: seq<Payload>, lo: nat, hi: nat, watched: Option<nat>): Option<Completion>
    requires lo <= hi <= |log|
  {
    if lo == hi then None
    else
      var c := ProcessEntry(Replayed(log, hi - 1), hi - 1, log[hi - 1], watched).1;
      if c.Some? then c else Completed(log, lo, hi - 1, watched)
  }

  lemma {:induction false} ReplayedOfPrefix(log: seq<Payload>, more: seq<Payload>, n: nat)
    requires n <= |log|
    ensures Replayed(log + more, n) == Replayed(log, n)
  {
    if n > 0 {
      ReplayedOfPrefix(log, more, n - 1);
    }
  }

  /** Later value for one watched completion: the newer one wins. */
  function Newer(old_: Option<Completion>, new_: Option<Completion>): Option<Completion> {
    if new_.Some? then new_ else old_
  }

  lemma {:induction false} CompletedSplits(log: seq<Payload>, lo: nat, mid: nat, hi: nat, watched: Option<nat>)
    requires lo <= mid <= hi <= |log|
    ensures Completed(log, lo, hi, watched) == Newer(Completed(log, lo, mid, watched), Completed(log, mid, hi, watched))
    decreases hi
  {
    if mid < hi {
      CompletedSplits(log, lo, mid, hi - 1, watched);
    }
  }

  class AgentBusCounter {
    var counter: int
    var nextPosition: nat
    var lastPosition: int
    var buffered: map<int, CounterOperation>
    const maxEntries: int

    ghost function CurrentView(): View
      reads this
    {
      View(counter, buffered)
    }

    ghost predicate Valid(log: seq<Payload>)
      reads this
    {
      nextPosition <= |log| && lastPosition == nextPosition - 1 && CurrentView() == Replayed(log, nextPosition)
    }

    constructor (maxEntries: int)
      ensures Valid([]) && nextPosition == 0 && this.maxEntries == maxEntries
    {
      counter, nextPosition, lastPosition, buffered := 0, 0, -1, map[];
      this.maxEntries := maxEntries;
    }

    method Process(position: nat, p: Payload, watched: Option<nat>) returns (c: Option<Completion>)
      modifies this`counter, this`buffered
      ensures (CurrentView(), c) == ProcessEntry(old(CurrentView()), position, p, watched)
    {
      c := None;
      match p {
        case Intention(_, _) =>
          if IsCounterWrite(p) {
            buffered := buffered[position as int := p.body.operation];
          }
        case Commit(id, _) =>
          if id in buffered {
            counter := Applied(counter, buffered[id]);
            buffered := buffered - {id};
            if watched.Some? && watched.value == id {
              c := Some(Completion(Value(counter), position));
            }
          }
        case Abort(id, _) =>
          buffered := buffered - {id};
          if watched.Some? && watched.value == id {
            c := Some(Completion(Denied, position));
          }
        case _ =>
      }
    }

    /** One poll of at most `maxEntries` entries of `log`; it fails when it can make no progress. */
    method PollAndProcess(log: seq<Payload>, watched: Option<nat>) returns (r: PollResult)
      requires Valid(log)
      modifies this
      ensures Valid(log)
      ensures r.PollFailed? <==> maxEntries <= 0 || old(nextPosition) == |log|
      ensures r.PollFailed? ==> nextPosition == old(nextPosition)
      ensures r.Polled? ==> old(nextPosition) < nextPosition <= |log|
      ensures r.Polled? ==> r.completed == Completed(log, old(nextPosition), nextPosition, watched)
    {
      var start := nextPosition;
      if maxEntries <= 0 || |log| <= start {
        return PollFailed;
      }
      var end := if start + maxEntries < |log| then start + maxEntries else |log|;
      var c: Option<Completion> := None;
      for pos := start to end
        invariant lastPosition == pos - 1 && CurrentView() == Replayed(log, pos)
        invariant c == Completed(log, start, pos, watched)
      {
        lastPosition := pos;
        var done := Process(pos, log[pos], watched);
        WatchingIsPassive(Replayed(log, pos), pos, log[pos], watched);
        if done.Some? {
          c := done;
        }
      }
      nextPosition := end;
      return Polled(c);
    }

    /** Drain to `tail`; only a poll size that allows no progress makes it fail. */
    method DrainTo(log: seq<Payload>, tail: nat, watched: Option<nat>) returns (r: PollResult)
      requires Valid(log) && tail <= |log|
      modifies this
      ensures Valid(log) && old(nextPosition) <= nextPosition
      ensures r.PollFailed? <==> maxEntries <= 0 && old(nextPosition) < tail
      ensures r.Polled? ==> tail <= nextPosition
      ensures r.Polled? ==> r.completed == Completed(log, old(nextPosition), nextPosition, watched)
    {
      var start := nextPosition;
      var c: Option<Completion> := None;
      while nextPosition < tail
        invariant Valid(log) && start <= nextPosition
        invariant start < nextPosition ==> maxEntries > 0
        invariant c == Completed(log, start, nextPosition, watched)
      {
        var mid := nextPosition;
        var polled := PollAndProcess(log, watched);
        if polled.PollFailed? {
          return PollFailed;
        }
        CompletedSplits(log, start, mid, nextPosition, watched);
        if polled.completed.Some? {
          c := polled.completed;
        }
      }
      return Polled(c);
    }
  }

  lemma WatchingIsPassive(v: View, position: nat, p: Payload, watched: Option<nat>)
    ensures ProcessEntry(v, position, p, watched).0 == ProcessEntry(v, position, p, None).0
  {
  }

  // ---- what a well-behaved log means to a client ----

  /** Decisions name an earlier intention, and no intention is decided twice. */
  ghost predicate GoodLog(log: seq<Payload>) {
    && (forall q :: 0 <= q < |log| && log[q].IsDecision() ==>
        exists p :: 0 <= p < q && log[q].Decides(p) && log[p].Intention?)
    && (forall p, q, r :: 0 <= q < r < |log| && log[q].Decides(p) ==> !log[r].Decides(p))
  }

  ghost predicate DecidedBy(log: seq<Payload>, p: int, n: nat)
    requires n <= |log|
  {
    exists q :: 0 <= q < n && log[q].Decides(p)
  }

  /** Buffering: an entry adds its own write and removes the one it decides. */
  lemma BufferStep(v: View, position: nat, e: Payload, p: int)
    ensures var v' := ProcessEntry(v, position, e, None).0;
            && (p in v'.buffered <==> (p == position && IsCounterWrite(e)) || (p in v.buffered && !e.Decides(p)))
            && (p in v'.buffered ==>
                v'.buffered[p] == if p == position && IsCounterWrite(e) then e.body.operation else v.buffered[p])
  {
  }

  lemma DecidedStep(log: seq<Payload>, p: int, n: nat)
    requires n < |log|
    ensures DecidedBy(log, p, n + 1) <==> DecidedBy(log, p, n) || log[n].Decides(p)
  {
    if DecidedBy(log, p, n) {
      var q :| 0 <= q < n && log[q].Decides(p);
      assert 0 <= q < n + 1;
    }
  }

  /** No decision names a position the log has not passed. */
  lemma DecidedIsEarlier(log: seq<Payload>, p: int, n: nat)
    requires GoodLog(log) && n <= |log| && DecidedBy(log, p, n)
    ensures 0 <= p < n - 1
  {
    var q :| 0 <= q < n && log[q].Decides(p);
    assert log[q].IsDecision();
  }

  /** A write is buffered from its intention until its decision. */
  lemma {:induction false} BufferedMeaning(log: seq<Payload>, n: nat, p: int)
    requires GoodLog(log) && n <= |log|
    ensures p in Replayed(log, n).buffered <==> 0 <= p < n && IsCounterWrite(log[p]) && !DecidedBy(log, p, n)
    ensures p in Replayed(log, n).buffered ==> Replayed(log, n).buffered[p] == log[p].body.operation
  {
    hide GoodLog, DecidedBy, ProcessEntry;
    if n > 0 {
      BufferedMeaning(log, n - 1, p);
      BufferStep(Replayed(log, n - 1), n - 1, log[n - 1], p);
      DecidedStep(log, p, n - 1);
      if DecidedBy(log, p, n) {
        DecidedIsEarlier(log, p, n);
      }
    }
  }

  /** The operation an entry applies to the counter: that of the write it commits. */
  function EffectOf(log: seq<Payload>, q: nat): CounterOperation
    requires q < |log|
  {
    if log[q].Commit? && 0 <= log[q].committed < q
        && IsCounterWrite(log[log[q].committed]) then log[log[q].committed].body.operation else Read
  }

  lemma ValueStep(log: seq<Payload>, q: nat)
    requires GoodLog(log) && q < |log|
    ensures Replayed(log, q + 1).value == Applied(Replayed(log, q).value, EffectOf(log, q))
  {
    if log[q].Commit? {
      BufferedMeaning(log, q, log[q].committed);
      assert log[q].Decides(log[q].committed);
    }
  }

  /** The counter does not move across entries without effect. */
  lemma {:induction false} ValueConstant(log: seq<Payload>, lo: nat, hi: nat)
    requires GoodLog(log) && lo <= hi <= |log|
    requires forall q :: lo <= q < hi ==> EffectOf(log, q) == Read
    ensures Replayed(log, hi).value == Replayed(log, lo).value
    decreases hi
  {
    hide GoodLog, ProcessEntry, EffectOf;
    if lo < hi {
      ValueConstant(log, lo, hi - 1);
      ValueStep(log, hi - 1);
    }
  }

  /** How the decision at `tag` answers the write at `p`. */
  ghost predicate AnswersWrite(log: seq<Payload>, p: nat, tag: int, output: CounterOutput) {
    && p < tag < |log| && log[tag].Decides(p)
    && output == if log[tag].Commit? then Value(Replayed(log, tag + 1).value) else Denied
  }

  /** Draining finds the decision of the watched write if and only if it is in the range. */
  lemma {:induction false} CompletedMeaning(log: seq<Payload>, lo: nat, hi: nat, p: nat)
    requires GoodLog(log) && lo <= hi <= |log| && p < |log| && IsCounterWrite(log[p])
    ensures var c := Completed(log, lo, hi, Some(p));
            && (c.Some? ==> lo <= c.value.tag < hi && AnswersWrite(log, p, c.value.tag, c.value.output))
            && (c.None? ==> forall q :: lo <= q < hi ==> !log[q].Decides(p))
    decreases hi
  {
    hide GoodLog, ProcessEntry;
    if lo < hi {
      CompletedMeaning(log, lo, hi - 1, p);
      CompletionAt(log, hi - 1, p);
    }
  }

  /** An entry completes the watched write exactly when it decides it. */
  lemma CompletionAt(log: seq<Payload>, q: nat, p: nat)
    requires GoodLog(log) && q < |log| && p < |log| && IsCounterWrite(log[p])
    ensures var c := ProcessEntry(Replayed(log, q), q, log[q], Some(p)).1;
            && (c.Some? <==> log[q].Decides(p))
            && (c.Some? ==> c.value.tag == q && AnswersWrite(log, p, q, c.value.output))
  {
    hide GoodLog;
    if log[q].Decides(p) {
      DecisionMeetsBuffer(log, q, p);
      assert Replayed(log, q + 1) == ProcessEntry(Replayed(log, q), q, log[q], None).0;
    }
  }

  lemma DecisionMeetsBuffer(log: seq<Payload>, q: nat, p: nat)
    requires GoodLog(log) && q < |log| && log[q].Decides(p) && p < |log| && IsCounterWrite(log[p])
    ensures p < q && p in Replayed(log, q).buffered
  {
    BufferedMeaning(log, q, p);
  }

  // ---- candidate order ----

  /** Order by tag, writes before reads, then start time, client and sequence. */
  predicate TagBefore(a: CounterObservation, b: CounterObservation) {
    if a.tag != b.tag then a.tag < b.tag
    else if a.operation.IsWrite() != b.operation.IsWrite() then a.operation.IsWrite()
    else if a.start != b.start then a.start < b.start
    else if a.id.client != b.id.client then a.id.client < b.id.client
    else a.id.sequence < b.id.sequence
  }

  ghost predicate TagSorted(order: seq<CounterObservation>) {
    forall i, j :: 0 <= i < j < |order| ==> TagBefore(order[i], order[j])
  }

  /** `order` lists the observations of the history in tag order. */
  ghost predicate IsTagOrder(obs: seq<CounterObservation>, order: seq<CounterObservation>) {
    && |order| == |obs| && TagSorted(order)
    && (forall o :: o in order <==> o in obs)
  }

  function Ids(order: seq<CounterObservation>): (ids: seq<OperationId>)
    ensures |ids| == |order| && forall k :: 0 <= k < |order| ==> ids[k] == order[k].id
  {
    seq(|order|, k requires 0 <= k < |order| => order[k].id)
  }

  /** The sort key: tag, writes (0) before reads (1), start, client, sequence. */
  function TagKey(o: CounterObservation): seq<int> {
    [o.tag, if o.operation == Increment || o.operation == Decrement then 0 else 1, o.start, o.id.client, o.id.sequence]
  }

  /** Lexicographic order: the first component that differs is smaller. */
  ghost predicate LexBelow(a: seq<int>, b: seq<int>) {
    exists k :: 0 <= k < |a| && k < |b| && a[k] < b[k] && forall j :: 0 <= j < k ==> a[j] == b[j]
  }

  lemma TagBeforeIsLex(a: CounterObservation, b: CounterObservation)
    ensures TagBefore(a, b) <==> LexBelow(TagKey(a), TagKey(b))
  {
    var x, y := TagKey(a), TagKey(b);
    if TagBefore(a, b) {
      var k :=
        if x[0] != y[0] then 0 else if x[1] != y[1] then 1 else if x[2] != y[2] then 2 else if x[3]
            != y[3] then 3 else 4;
      assert x[k] < y[k];
    }
    if LexBelow(x, y) {
      var k :| 0 <= k < |x| && x[k] < y[k] && forall j :: 0 <= j < k ==> x[j] == y[j];
      assert (k > 0 ==> x[0] == y[0]) && (k > 1 ==> x[1] == y[1]) && (k > 2 ==> x[2] == y[2])
          && (k > 3 ==> x[3] == y[3]);
    }
  }

  /** No operation stands before one that the tag order puts first. */
  ghost predicate TagAscending(order: seq<CounterObservation>) {
    forall i, j :: 0 <= i < j < |order| ==> !TagBefore(order[j], order[i])
  }

  /** The observations sorted by tag; in strict order when their ids are distinct. */
  method CandidateFromOrderedTags(obs: seq<CounterObservation>)
    returns (candidate: seq<OperationId>, ghost order: seq<CounterObservation>)
    ensures candidate == Ids(order) && multiset(order) == multiset(obs) && TagAscending(order)
    ensures forall i, j :: 0 <= i < j < |order| ==> !LexBelow(TagKey(order[j]), TagKey(order[i]))
    ensures Distinct(obs) ==> IsTagOrder(obs, order)
  {
    hide Distinct, TagBefore, IsTagOrder, TagAscending, LexBelow, TagKey;
    var sorted: seq<CounterObservation> := [];
    NothingSorted(obs);
    for n := 0 to |obs|
      invariant multiset(sorted) == multiset(obs[..n]) && TagAscending(sorted)
      invariant Distinct(obs) ==> IsTagOrder(obs[..n], sorted)
    {
      var k := |sorted|;
      while 0 < k && TagBefore(obs[n], sorted[k - 1])
        invariant 0 <= k <= |sorted|
        invariant forall i :: k <= i < |sorted| ==> TagBefore(obs[n], sorted[i])
      {
        k := k - 1;
      }
      if Distinct(obs) {
        InsertByTag(obs, n, sorted, k);
      }
      InsertAscending(sorted, k, obs[n]);
      InsertedOnce(sorted, k, obs[n]);
      assert obs[..n + 1] == obs[..n] + [obs[n]];
      sorted := sorted[..k] + [obs[n]] + sorted[k..];
    }
    assert obs[..|obs|] == obs;
    candidate, order := Ids(sorted), sorted;
    AscendingIsLex(sorted);
  }

  lemma AscendingIsLex(order: seq<CounterObservation>)
    requires TagAscending(order)
    ensures forall i, j :: 0 <= i < j < |order| ==> !LexBelow(TagKey(order[j]), TagKey(order[i]))
  {
    hide TagBefore, LexBelow, TagKey;
    forall i, j | 0 <= i < j < |order|
      ensures !LexBelow(TagKey(order[j]), TagKey(order[i]))
    {
      TagBeforeIsLex(order[j], order[i]);
    }
  }

  lemma NothingSorted(obs: seq<CounterObservation>)
    ensures TagAscending([]) && IsTagOrder(obs[..0], [])
  {
  }

  lemma InsertedOnce(sorted: seq<CounterObservation>, k: nat, o: CounterObservation)
    requires k <= |sorted|
    ensures multiset(sorted[..k] + [o] + sorted[k..]) == multiset(sorted) + multiset{o}
  {
    assert sorted == sorted[..k] + sorted[k..];
  }

  lemma InsertAscending(sorted: seq<CounterObservation>, k: nat, o: CounterObservation)
    requires TagAscending(sorted) && k <= |sorted|
    requires forall i :: k <= i < |sorted| ==> TagBefore(o, sorted[i])
    requires 0 < k ==> !TagBefore(o, sorted[k - 1])
    ensures TagAscending(sorted[..k] + [o] + sorted[k..])
  {
    hide TagBefore;
    forall i | 0 <= i < k
      ensures !TagBefore(o, sorted[i])
    {
      if i < k - 1 {
        NotBeforeTransitive(o, sorted[k - 1], sorted[i]);
      }
    }
    forall i | k <= i < |sorted|
      ensures !TagBefore(sorted[i], o)
    {
      TagBeforeAsymmetric(o, sorted[i]);
    }
  }

  lemma NotBeforeTransitive(a: CounterObservation, b: CounterObservation, c: CounterObservation)
    requires !TagBefore(a, b) && !TagBefore(b, c)
    ensures !TagBefore(a, c)
  {
  }

  lemma TagBeforeAsymmetric(a: CounterObservation, b: CounterObservation)
    requires TagBefore(a, b)
    ensures !TagBefore(b, a)
  {
  }

  lemma InsertByTag(obs: seq<CounterObservation>, n: nat, sorted: seq<CounterObservation>, k: nat)
    requires Distinct(obs) && n < |obs| && IsTagOrder(obs[..n], sorted) && k <= |sorted|
    requires forall i :: k <= i < |sorted| ==> TagBefore(obs[n], sorted[i])
    requires 0 < k ==> !TagBefore(obs[n], sorted[k - 1])
    ensures IsTagOrder(obs[..n + 1], sorted[..k] + [obs[n]] + sorted[k..])
  {
    hide Distinct, TagBefore, TagSorted;
    if 0 < k {
      assert sorted[k - 1] in obs[..n];
      NotAfterIsBefore(obs, n, sorted[k - 1]);
    }
    InsertSorted(sorted, k, obs[n]);
    forall o ensures o in sorted[..k] + [obs[n]] + sorted[k..] <==> o in obs[..n + 1] {
      InsertedMembers(sorted, k, obs[n], o);
      InPrefix(obs, n, o);
    }
  }

  /** Tag order is total on operations with different ids. */
  lemma NotAfterIsBefore(obs: seq<CounterObservation>, n: nat, o: CounterObservation)
    requires Distinct(obs) && n < |obs| && o in obs[..n] && !TagBefore(obs[n], o)
    ensures TagBefore(o, obs[n])
  {
    var x :| 0 <= x < n && obs[..n][x] == o;
    assert obs[x].id != obs[n].id;
  }

  lemma InsertSorted(sorted: seq<CounterObservation>, k: nat, o: CounterObservation)
    requires TagSorted(sorted) && k <= |sorted|
    requires forall i :: k <= i < |sorted| ==> TagBefore(o, sorted[i])
    requires 0 < k ==> TagBefore(sorted[k - 1], o)
    ensures TagSorted(sorted[..k] + [o] + sorted[k..])
  {
    hide TagBefore;
    forall i | 0 <= i < k ensures TagBefore(sorted[i], o) {
      if i < k - 1 {
        TagBeforeTransitive(sorted[i], sorted[k - 1], o);
      }
    }
  }

  lemma TagBeforeTransitive(a: CounterObservation, b: CounterObservation, c: CounterObservation)
    requires TagBefore(a, b) && TagBefore(b, c)
    ensures TagBefore(a, c)
  {
  }
}

/** Histories of completed concurrent operations: the precedence order, completion of an
    anchored candidate, and the check that a candidate is a linearization. */
module History {
  import opened Bus

  datatype Observation<+O, +R, +T> = Observation(id: OperationId, start: nat, end: nat, operation: O, output: R, tag: T)

  predicate Precedes<O, R, T>(a: Observation<O, R, T>, b: Observation<O, R, T>) {
    (a.id.client == b.id.client && a.id.sequence < b.id.sequence) || a.end < b.start
  }

  ghost predicate Distinct<O, R, T>(obs: seq<Observation<O, R, T>>) {
    forall i, j :: 0 <= i < j < |obs| ==> obs[i].id != obs[j].id
  }

  ghost predicate NoDuplicates(ids: seq<OperationId>) {
    forall i, j :: 0 <= i < j < |ids| ==> ids[i] != ids[j]
  }

  /** Clients run one operation at a time: no operation ends before it starts, and operations
      of one client do not overlap. */
  ghost predicate Sequential<O, R, T>(obs: seq<Observation<O, R, T>>) {
    && (forall i :: 0 <= i < |obs| ==> obs[i].start <= obs[i].end)
    && (forall i, j ::
        0 <= i < |obs| && 0 <= j < |obs| && obs[i].id.client == obs[j].id.client
        && obs[i].id.sequence < obs[j].id.sequence ==>
        obs[i].end <= obs[j].start)
  }

  /** Each client's sequence numbers start at 0 and have no gap. */
  ghost predicate Gapless<O, R, T>(obs: seq<Observation<O, R, T>>) {
    forall i :: 0 <= i < |obs| && 0 < obs[i].id.sequence ==>
        Has(obs, OperationId(obs[i].id.client, obs[i].id.sequence - 1))
  }

  ghost predicate Has<O, R, T>(obs: seq<Observation<O, R, T>>, id: OperationId) {
    exists k :: 0 <= k < |obs| && obs[k].id == id
  }

  /** Index of the observations by operation id; a repeated id keeps the last one. */
  function ById<O, R, T>(obs: seq<Observation<O, R, T>>): (m: map<OperationId, Observation<O, R, T>>)
    ensures forall id :: id in m ==> m[id].id == id && m[id] in obs
    ensures forall k :: 0 <= k < |obs| ==> obs[k].id in m
  {
    if obs == [] then map[] else ById(obs[..|obs| - 1])[obs[|obs| - 1].id := obs[|obs| - 1]]
  }

  lemma ByIdKeys<O, R, T>(obs: seq<Observation<O, R, T>>, id: OperationId)
    ensures id in ById(obs) <==> Has(obs, id)
  {
    if id in ById(obs) {
      var k :| 0 <= k < |obs| && obs[k] == ById(obs)[id];
    }
  }

  /** Ids are distinct exactly when the index is as large as the history. */
  lemma {:induction false} ByIdSize<O, R, T>(obs: seq<Observation<O, R, T>>)
    ensures |ById(obs).Keys| <= |obs|
    ensures |ById(obs).Keys| == |obs| <==> Distinct(obs)
  {
    if obs != [] {
      var n := |obs| - 1;
      ByIdSize(obs[..n]);
      assert ById(obs).Keys == ById(obs[..n]).Keys + {obs[n].id};
      ByIdKeys(obs[..n], obs[n].id);
      DistinctSnoc(obs);
    }
  }

  lemma DistinctSnoc<O, R, T>(obs: seq<Observation<O, R, T>>)
    requires obs != []
    ensures Distinct(obs) <==> Distinct(obs[..|obs| - 1]) && !Has(obs[..|obs| - 1], obs[|obs| - 1].id)
  {
    var n := |obs| - 1;
    if Distinct(obs[..n]) && !Has(obs[..n], obs[n].id) {
      forall i, j | 0 <= i < j < |obs| ensures obs[i].id != obs[j].id {
        assert obs[..n][i] == obs[i];
      }
    }
    if Distinct(obs) {
      assert forall i :: 0 <= i < n ==> obs[..n][i] == obs[i];
    }
  }

  lemma ByIdLookup<O, R, T>(obs: seq<Observation<O, R, T>>, o: Observation<O, R, T>)
    requires Distinct(obs) && o in obs
    ensures o.id in ById(obs) && ById(obs)[o.id] == o
  {
    var i :| 0 <= i < |obs| && obs[i] == o;
    var k :| 0 <= k < |obs| && obs[k] == ById(obs)[o.id];
  }

  lemma InsertedMembers<O, R,
      T>(own: seq<Observation<O, R, T>>, k: nat, x: Observation<O, R, T>, o: Observation<O, R, T>)
    requires k <= |own|
    ensures o in own[..k] + [x] + own[k..] <==> o in own || o == x
  {
    var own' := own[..k] + [x] + own[k..];
    assert own'[k] == x;
    if o in own {
      var i :| 0 <= i < |own| && own[i] == o;
      assert own'[if i < k then i else i + 1] == o;
    }
  }

  lemma InPrefix<O, R, T>(obs: seq<Observation<O, R, T>>, n: nat, o: Observation<O, R, T>)
    requires n < |obs|
    ensures o in obs[..n + 1] <==> o in obs[..n] || o == obs[n]
  {
    assert obs[..n + 1] == obs[..n] + [obs[n]];
  }

  // ---- the precedence order ----

  /** On sequential clients precedence is a strict partial order. */
  lemma PrecedesIsStrictOrder<O, R, T>(obs: seq<Observation<O, R, T>>, i: nat, j: nat, k: nat)
    requires Sequential(obs) && i < |obs| && j < |obs| && k < |obs|
    ensures !Precedes(obs[i], obs[i])
    ensures Precedes(obs[i], obs[j]) && Precedes(obs[j], obs[k]) ==> Precedes(obs[i], obs[k])
    ensures Precedes(obs[i], obs[j]) ==> !Precedes(obs[j], obs[i])
  {
  }

  /** Whether the first of two operations starts no later and, at equal starts, has no larger sequence. */
  predicate StartsFirst<O, R, T>(a: Observation<O, R, T>, b: Observation<O, R, T>) {
    a.start < b.start || (a.start == b.start && a.id.sequence <= b.id.sequence)
  }

  /** Some operation of a nonempty sequential history is preceded by none. */
  lemma {:induction false} SomeMinimal<O, R, T>(obs: seq<Observation<O, R, T>>) returns (k: nat)
    requires Sequential(obs) && obs != []
    ensures k < |obs|
    ensures forall i :: 0 <= i < |obs| ==> StartsFirst(obs[k], obs[i])
    ensures forall i :: 0 <= i < |obs| ==> !Precedes(obs[i], obs[k])
  {
    k := 0;
    for n := 1 to |obs|
      invariant k < |obs|
      invariant forall i :: 0 <= i < n ==> StartsFirst(obs[k], obs[i])
    {
      if !StartsFirst(obs[k], obs[n]) {
        k := n;
      }
    }
  }

  // ---- completing an anchored candidate ----

  /** The candidate never places an operation after one it precedes. */
  ghost predicate Respects<O, R, T>(m: map<OperationId, Observation<O, R, T>>, candidate: seq<OperationId>)
    requires Known(m, candidate)
  {
    forall i, j :: 0 <= i < j < |candidate| ==> !Precedes(m[candidate[j]], m[candidate[i]])
  }

  /** `order` keeps the relative order of the operations of `anchors`. */
  ghost predicate KeepsOrder(anchors: seq<OperationId>, order: seq<OperationId>) {
    forall i, j, p, q ::
        0 <= i < j < |anchors| && 0 <= p < |order| && 0 <= q < |order| && order[p] == anchors[i]
        && order[q] == anchors[j] ==>
        p < q
  }

  ghost predicate Known<O, R, T>(m: map<OperationId, Observation<O, R, T>>, ids: seq<OperationId>) {
    forall k :: 0 <= k < |ids| ==> ids[k] in m
  }

  lemma KnownMembers<O, R, T>(m: map<OperationId, Observation<O, R, T>>, ids: seq<OperationId>)
    ensures Known(m, ids) <==> forall id :: id in ids ==> id in m
  {
  }

  /** Index of the missing operation that no missing operation precedes, least by client then sequence. */
  method FindSource<O, R, T>(missing: seq<Observation<O, R, T>>) returns (source: Option<nat>)
    ensures source.Some? ==> source.value < |missing|
    ensures source.Some? ==> forall i :: 0 <= i < |missing| ==> !Precedes(missing[i], missing[source.value])
    ensures source.Some? ==> forall k :: 0 <= k < |missing| && Unpreceded(missing, k) ==>
        !IdBefore(missing[k].id, missing[source.value].id)
    ensures source.None? ==> forall k :: 0 <= k < |missing| ==> !Unpreceded(missing, k)
  {
    source := None;
    for n := 0 to |missing|
      invariant source.Some? ==> source.value < n && Unpreceded(missing, source.value)
      invariant source.Some? ==> forall k :: 0 <= k < n && Unpreceded(missing, k) ==>
          !IdBefore(missing[k].id, missing[source.value].id)
      invariant source.None? ==> forall k :: 0 <= k < n ==> !Unpreceded(missing, k)
    {
      var free := true;
      for i := 0 to |missing|
        invariant free <==> forall x :: 0 <= x < i ==> !Precedes(missing[x], missing[n])
      {
        if Precedes(missing[i], missing[n]) {
          free := false;
        }
      }
      assert free <==> Unpreceded(missing, n);
      if free && (source.None? || IdBefore(missing[n].id, missing[source.value].id)) {
        source := Some(n);
      }
    }
  }

  ghost predicate Unpreceded<O, R, T>(missing: seq<Observation<O, R, T>>, k: nat)
    requires k < |missing|
  {
    forall i :: 0 <= i < |missing| ==> !Precedes(missing[i], missing[k])
  }

  predicate IdBefore(a: OperationId, b: OperationId) {
    a.client < b.client || (a.client == b.client && a.sequence < b.sequence)
  }

  function Insert(ids: seq<OperationId>, k: nat, id: OperationId): seq<OperationId>
    requires k <= |ids|
  {
    ids[..k] + [id] + ids[k..]
  }

  /** The legal range of positions for `x`: after everything that precedes it, before everything it precedes. */
  method FindGap<O, R, T>(m: map<OperationId, Observation<O, R, T>>, ids: seq<OperationId>, x: Observation<O, R, T>)
    returns (after: nat, before: nat)
    requires Known(m, ids)
    ensures after <= |ids| && before <= |ids|
    ensures forall k :: after <= k < |ids| ==> !Precedes(m[ids[k]], x)
    ensures forall k :: 0 <= k < before ==> !Precedes(x, m[ids[k]])
    ensures 0 < after ==> Precedes(m[ids[after - 1]], x)
    ensures before < |ids| ==> Precedes(x, m[ids[before]])
  {
    after, before := 0, |ids|;
    for n := 0 to |ids|
      invariant after <= n && before <= |ids| && (before < |ids| ==> before < n)
      invariant forall k :: after <= k < n ==> !Precedes(m[ids[k]], x)
      invariant forall k :: 0 <= k < before && k < n ==> !Precedes(x, m[ids[k]])
      invariant 0 < after ==> Precedes(m[ids[after - 1]], x)
      invariant before < |ids| ==> Precedes(x, m[ids[before]])
    {
      if Precedes(m[ids[n]], x) {
        after := n + 1;
      }
      if Precedes(x, m[ids[n]]) && n < before {
        before := n;
      }
    }
  }

  /** Operations of `obs` whose ids are outside `ids`. */
  method CollectMissing<O, R, T>(obs: seq<Observation<O, R, T>>, ids: set<OperationId>)
    returns (missing: seq<Observation<O, R, T>>)
    requires Distinct(obs)
    ensures Distinct(missing)
    ensures forall o :: o in missing <==> o in obs && o.id !in ids
  {
    missing := [];
    for n := 0 to |obs|
      invariant Distinct(missing)
      invariant forall o :: o in missing <==> o in obs[..n] && o.id !in ids
    {
      if obs[n].id !in ids {
        forall i | 0 <= i < |missing| ensures missing[i].id != obs[n].id {
          assert missing[i] in obs[..n];
        }
        missing := missing + [obs[n]];
      }
    }
    assert obs[..|obs|] == obs;
  }

  /** `order` and `missing` together hold every operation once, and `order` extends the anchors. */
  ghost predicate Placing<O, R,
      T>(obs: seq<Observation<O, R, T>>, anchors: seq<OperationId>, order: seq<OperationId>, missing: seq<Observation<O,
          R, T>>) {
    && Known(ById(obs), order) && NoDuplicates(order) && KeepsOrder(anchors, order)
    && (forall k :: 0 <= k < |anchors| ==> anchors[k] in order)
    && Distinct(missing)
    && (forall o :: o in missing ==> o in obs && o.id !in order)
    && (forall o :: o in obs && o.id !in order ==> o in missing)
  }

  // ---- the placement rule, as a specification ----

  /** Positions for x that keep precedence with everything placed. */
  ghost predicate Legal<O, R,
      T>(m: map<OperationId, Observation<O, R, T>>, order: seq<OperationId>, x: OperationId, k: nat)
    requires Known(m, order) && x in m
  {
    && k <= |order|
    && (forall i :: 0 <= i < k ==> !Precedes(m[x], m[order[i]]))
    && (forall i :: k <= i < |order| ==> !Precedes(m[order[i]], m[x]))
  }

  /** An operation not yet placed that no other such operation precedes. */
  ghost predicate Free<O, R, T>(m: map<OperationId, Observation<O, R, T>>, order: seq<OperationId>, x: OperationId) {
    x in m && x !in order && forall y :: y in m && y !in order ==> !Precedes(m[y], m[x])
  }

  /** One placement: the free operation least by client and sequence goes to its earliest legal position. */
  ghost predicate Places<O, R,
      T>(m: map<OperationId, Observation<O, R, T>>, order: seq<OperationId>, order': seq<OperationId>, x: OperationId,
          k: nat) {
    && Known(m, order) && Free(m, order, x)
    && (forall y :: Free(m, order, y) ==> x.client < y.client || (x.client == y.client && x.sequence <= y.sequence))
    && Legal(m, order, x, k) && (forall k' :: 0 <= k' < k ==> !Legal(m, order, x, k'))
    && order' == Insert(order, k, x)
  }

  ghost predicate PlacementStep<O, R,
      T>(m: map<OperationId, Observation<O, R, T>>, order: seq<OperationId>, order': seq<OperationId>) {
    exists x, k :: Places(m, order, order', x, k)
  }

  /** `result` arises from the candidate by placements until every operation is placed. */
  ghost predicate Completes<O, R,
      T>(m: map<OperationId, Observation<O, R, T>>, candidate: seq<OperationId>, result: seq<OperationId>) {
    exists orders: seq<seq<OperationId>> :: IsCompletion(m, candidate, result, orders)
  }

  ghost predicate IsCompletion<O, R,
      T>(m: map<OperationId, Observation<O, R, T>>, candidate: seq<OperationId>, result: seq<OperationId>,
          orders: seq<seq<OperationId>>) {
    IsPlacing(m, candidate, result, orders) && forall id :: id in m ==> id in result
  }

  ghost predicate IsPlacing<O, R,
      T>(m: map<OperationId, Observation<O, R, T>>, candidate: seq<OperationId>, result: seq<OperationId>,
          orders: seq<seq<OperationId>>) {
    && orders != [] && orders[0] == candidate && orders[|orders| - 1] == result
    && forall i, j :: 0 <= i < j < |orders| && j == i + 1 ==> PlacementStep(m, orders[i], orders[j])
  }

  lemma PlacementIsUnique<O, R,
      T>(m: map<OperationId, Observation<O, R, T>>, order: seq<OperationId>, a: seq<OperationId>, b: seq<OperationId>)
    requires PlacementStep(m, order, a) && PlacementStep(m, order, b)
    ensures a == b
  {
    hide Free, Legal, Known, Insert;
    var x, k :| Places(m, order, a, x, k);
    var y, j :| Places(m, order, b, y, j);
    assert x == y;
  }

  lemma {:induction false} PlacingsAgree<O, R,
      T>(m: map<OperationId, Observation<O, R, T>>, candidate: seq<OperationId>, a: seq<OperationId>,
          b: seq<OperationId>, as_: seq<seq<OperationId>>, bs: seq<seq<OperationId>>, n: nat)
    requires IsPlacing(m, candidate, a, as_) && IsPlacing(m, candidate, b, bs) && n < |as_| && n < |bs|
    ensures as_[n] == bs[n]
  {
    hide PlacementStep;
    if n > 0 {
      PlacingsAgree(m, candidate, a, b, as_, bs, n - 1);
      PlacementIsUnique(m, as_[n - 1], as_[n], bs[n]);
    }
  }

  lemma NoStepWhenPlaced<O, R,
      T>(m: map<OperationId, Observation<O, R, T>>, order: seq<OperationId>, order': seq<OperationId>)
    requires PlacementStep(m, order, order')
    ensures exists id :: id in m && id !in order
  {
    var x, k :| Places(m, order, order', x, k);
  }

  /** The completion is determined by the observations and the anchors alone. */
  lemma CompletionIsUnique<O, R,
      T>(m: map<OperationId, Observation<O, R, T>>, candidate: seq<OperationId>, a: seq<OperationId>,
          b: seq<OperationId>)
    requires Completes(m, candidate, a) && Completes(m, candidate, b)
    ensures a == b
  {
    hide PlacementStep;
    var as_ :| IsCompletion(m, candidate, a, as_);
    var bs :| IsCompletion(m, candidate, b, bs);
    var n := (if |as_| < |bs| then |as_| else |bs|) - 1;
    PlacingsAgree(m, candidate, a, b, as_, bs, n);
    if |as_| < |bs| {
      NoStepWhenPlaced(m, bs[n], bs[n + 1]);
    } else if |bs| < |as_| {
      NoStepWhenPlaced(m, as_[n], as_[n + 1]);
    }
  }

  /** The order in which operations were recorded does not matter: the same observations give one index. */
  lemma RecordingOrderIsIrrelevant<O, R, T>(obs: seq<Observation<O, R, T>>, obs': seq<Observation<O, R, T>>)
    requires Distinct(obs) && Distinct(obs') && forall o :: o in obs <==> o in obs'
    ensures ById(obs) == ById(obs')
  {
    hide Distinct;
    forall id | id in ById(obs)
      ensures id in ById(obs') && ById(obs')[id] == ById(obs)[id]
    {
      ByIdLookup(obs', ById(obs)[id]);
    }
    forall id | id in ById(obs')
      ensures id in ById(obs)
    {
      ByIdLookup(obs, ById(obs')[id]);
    }
  }

  /** The scan's bounds give the earliest legal position of the chosen operation. */
  lemma PlacesNext<O, R,
      T>(obs: seq<Observation<O, R, T>>, anchors: seq<OperationId>, order: seq<OperationId>, missing: seq<Observation<O,
          R, T>>, source: nat, k: nat)
    requires Distinct(obs) && Placing(obs, anchors, order, missing) && Known(ById(obs), order)
    requires source < |missing| && k <= |order| && Unpreceded(missing, source)
    requires forall n :: 0 <= n < |missing| && Unpreceded(missing, n) ==> !IdBefore(missing[n].id, missing[source].id)
    requires forall i :: k <= i < |order| ==> !Precedes(ById(obs)[order[i]], missing[source])
    requires forall i :: 0 <= i < k ==> !Precedes(missing[source], ById(obs)[order[i]])
    requires 0 < k ==> Precedes(ById(obs)[order[k - 1]], missing[source])
    ensures PlacementStep(ById(obs), order, Insert(order, k, missing[source].id))
  {
    hide Precedes, ById, KeepsOrder, NoDuplicates, Insert, Free, Legal, Placing, Unpreceded, Known;
    var m, x := ById(obs), missing[source];
    SourceIsFree(obs, anchors, order, missing, source);
    EarliestAt(m, order, x, k);
    forall y | Free(m, order, y)
      ensures !IdBefore(y, x.id)
    {
      FreeIsUnpreceded(obs, anchors, order, missing, y);
    }
    assert Places(m, order, Insert(order, k, x.id), x.id, k);
  }

  lemma SourceIsFree<O, R, T>(obs: seq<Observation<O, R, T>>, anchors: seq<OperationId>, order: seq<OperationId>,
      missing: seq<Observation<O, R, T>>, source: nat)
    requires Distinct(obs) && Placing(obs, anchors, order, missing)
    requires source < |missing| && Unpreceded(missing, source)
    ensures missing[source].id in ById(obs) && ById(obs)[missing[source].id] == missing[source]
    ensures Free(ById(obs), order, missing[source].id)
  {
    hide Precedes, ById, KeepsOrder, NoDuplicates, Known;
    var m, x := ById(obs), missing[source];
    assert x in missing;
    ByIdLookup(obs, x);
    forall y | y in m && y !in order
      ensures !Precedes(m[y], x)
    {
      MissingHas(obs, anchors, order, missing, y);
      var n :| 0 <= n < |missing| && missing[n] == m[y];
    }
  }

  lemma EarliestAt<O, R, T>(m: map<OperationId, Observation<O, R, T>>, order: seq<OperationId>, x: Observation<O, R, T>,
      k: nat)
    requires Known(m, order) && x.id in m && m[x.id] == x && k <= |order|
    requires forall i :: k <= i < |order| ==> !Precedes(m[order[i]], x)
    requires forall i :: 0 <= i < k ==> !Precedes(x, m[order[i]])
    requires 0 < k ==> Precedes(m[order[k - 1]], x)
    ensures Legal(m, order, x.id, k) && forall k' :: 0 <= k' < k ==> !Legal(m, order, x.id, k')
  {
    hide Precedes;
  }

  lemma MissingHas<O, R,
      T>(obs: seq<Observation<O, R, T>>, anchors: seq<OperationId>, order: seq<OperationId>, missing: seq<Observation<O,
          R, T>>, y: OperationId)
    requires Placing(obs, anchors, order, missing) && y in ById(obs) && y !in order
    ensures ById(obs)[y] in missing && ById(obs)[y].id == y
  {
    hide Distinct, NoDuplicates, KeepsOrder, Known;
  }

  lemma FreeIsUnpreceded<O, R,
      T>(obs: seq<Observation<O, R, T>>, anchors: seq<OperationId>, order: seq<OperationId>, missing: seq<Observation<O,
          R, T>>, y: OperationId)
    requires Distinct(obs) && Placing(obs, anchors, order, missing) && Free(ById(obs), order, y)
    ensures exists n :: 0 <= n < |missing| && missing[n].id == y && Unpreceded(missing, n)
  {
    hide KeepsOrder, NoDuplicates, Precedes, Known;
    MissingHas(obs, anchors, order, missing, y);
    var n :| 0 <= n < |missing| && missing[n] == ById(obs)[y];
    forall i | 0 <= i < |missing|
      ensures !Precedes(missing[i], missing[n])
    {
      assert missing[i] in missing;
      ByIdLookup(obs, missing[i]);
    }
    assert Unpreceded(missing, n);
  }

  /** Insert the operations missing from `candidate`. On sequential histories and respectful
      anchors this never fails; whatever it returns holds every operation once, keeps the order
      of the anchors and, for respectful anchors, respects precedence on every pair. The result is
      the one the placement rule determines: each operation at its earliest legal position. */
  method CompleteCandidate<O, R, T>(obs: seq<Observation<O, R, T>>, candidate: seq<OperationId>)
    returns (r: Option<seq<OperationId>>)
    ensures r.Some? ==> Distinct(obs) && NoDuplicates(candidate) && Known(ById(obs), candidate)
    ensures r.Some? ==> IsPermutation(obs, r.value) && KeepsOrder(candidate, r.value)
    ensures r.Some? && Respects(ById(obs), candidate) ==> Respects(ById(obs), r.value)
    ensures r.Some? ==> Completes(ById(obs), candidate, r.value)
    ensures Distinct(obs) && Sequential(obs) && NoDuplicates(candidate) && Known(ById(obs), candidate)
            && Respects(ById(obs), candidate) ==>
            r.Some?
  {
    hide Distinct, Sequential, NoDuplicates, Known, Respects, KeepsOrder, IsPermutation, Placing, PlacementStep,
        IsPlacing;
    var m := ById(obs);
    ByIdSize(obs);
    IdSetSize(candidate);
    KnownMembers(m, candidate);
    if |m.Keys| != |obs| || |set id | id in candidate| != |candidate| || exists id :: id in candidate && id !in m {
      return None;
    }
    var missing := CollectMissing(obs, set id | id in candidate);
    StartPlacing(obs, candidate, missing);
    var order := candidate;
    ghost var orders := [candidate];
    PlacingStarts(m, candidate);
    while missing != []
      invariant Placing(obs, candidate, order, missing) && Known(m, order)
      invariant Respects(m, candidate) ==> Respects(m, order)
      invariant IsPlacing(m, candidate, order, orders)
      decreases |missing|
    {
      var source := FindSource(missing);
      if Sequential(obs) {
        SourceExists(obs, candidate, order, missing);
      }
      if source.None? {
        return None;
      }
      var x := missing[source.value];
      var after, before := FindGap(m, order, x);
      if Sequential(obs) && Respects(m, order) {
        GapExists(obs, candidate, order, missing, x, after, before);
      }
      if before < after {
        return None;
      }
      PlacesNext(obs, candidate, order, missing, source.value, after);
      PlacingContinues(m, candidate, order, orders, Insert(order, after, x.id));
      orders := orders + [Insert(order, after, x.id)];
      PlaceNext(obs, candidate, order, missing, source.value, after);
      missing := missing[..source.value] + missing[source.value + 1..];
      order := Insert(order, after, x.id);
    }
    AllPlaced(obs, candidate, order);
    PlacingEnds(obs, candidate, order);
    assert IsCompletion(m, candidate, order, orders);
    return Some(order);
  }

  lemma PlacingStarts<O, R, T>(m: map<OperationId, Observation<O, R, T>>, candidate: seq<OperationId>)
    ensures IsPlacing(m, candidate, candidate, [candidate])
  {
  }

  lemma PlacingContinues<O, R,
      T>(m: map<OperationId, Observation<O, R, T>>, candidate: seq<OperationId>, order: seq<OperationId>,
          orders: seq<seq<OperationId>>, order': seq<OperationId>)
    requires IsPlacing(m, candidate, order, orders) && PlacementStep(m, order, order')
    ensures IsPlacing(m, candidate, order', orders + [order'])
  {
    hide PlacementStep;
    var orders' := orders + [order'];
    forall i, j | 0 <= i < j < |orders'| && j == i + 1
      ensures PlacementStep(m, orders'[i], orders'[j])
    {
      if j < |orders| {
        assert orders'[i] == orders[i] && orders'[j] == orders[j];
      }
    }
  }

  lemma PlacingEnds<O, R, T>(obs: seq<Observation<O, R, T>>, candidate: seq<OperationId>, order: seq<OperationId>)
    requires Placing(obs, candidate, order, [])
    ensures forall id :: id in ById(obs) ==> id in order
  {
    forall id | id in ById(obs) && id !in order
      ensures ById(obs)[id] in []
    {
    }
  }

  /** `ids` lists every operation of the history exactly once. */
  ghost predicate IsPermutation<O, R, T>(obs: seq<Observation<O, R, T>>, ids: seq<OperationId>) {
    && |ids| == |obs| && NoDuplicates(ids) && Known(ById(obs), ids)
    && forall k :: 0 <= k < |obs| ==> obs[k].id in ids
  }

  lemma AllPlaced<O, R, T>(obs: seq<Observation<O, R, T>>, anchors: seq<OperationId>, order: seq<OperationId>)
    requires Distinct(obs) && Placing(obs, anchors, order, [])
    ensures IsPermutation(obs, order) && KeepsOrder(anchors, order)
  {
    ByIdSize(obs);
    IdSetSize(order);
    forall k | 0 <= k < |obs| ensures obs[k].id in order {
      assert obs[k] !in [];
    }
    assert (set id | id in order) == ById(obs).Keys;
  }

  lemma PlaceNext<O, R,
      T>(obs: seq<Observation<O, R, T>>, anchors: seq<OperationId>, order: seq<OperationId>, missing: seq<Observation<O,
          R, T>>, source: nat, k: nat)
    requires Distinct(obs) && Placing(obs, anchors, order, missing) && Known(ById(obs), order) && source < |missing|
        && k <= |order|
    requires forall i :: k <= i < |order| ==> !Precedes(ById(obs)[order[i]], missing[source])
    requires forall i :: 0 <= i < k ==> !Precedes(missing[source], ById(obs)[order[i]])
    ensures Placing(obs, anchors, Insert(order, k, missing[source].id), missing[..source] + missing[source + 1..])
    ensures Known(ById(obs), Insert(order, k, missing[source].id))
    ensures Respects(ById(obs), order) ==> Respects(ById(obs), Insert(order, k, missing[source].id))
  {
    hide KeepsOrder, Respects, NoDuplicates, Distinct, Known, Insert, Precedes, ById;
    var x := missing[source];
    assert x in missing;
    ByIdLookup(obs, x);
    InsertKeeps(ById(obs), anchors, order, x, k);
    PlaceMembers(obs, order, missing, source, k);
    forall i | 0 <= i < |anchors| ensures anchors[i] in Insert(order, k, x.id) {
      InsertMembers(order, k, x.id, anchors[i]);
    }
  }

  lemma PlaceMembers<O, R,
      T>(obs: seq<Observation<O, R, T>>, order: seq<OperationId>, missing: seq<Observation<O, R, T>>, source: nat,
          k: nat)
    requires Distinct(obs) && Distinct(missing) && source < |missing| && k <= |order|
    requires forall o :: o in missing ==> o in obs && o.id !in order
    requires forall o :: o in obs && o.id !in order ==> o in missing
    ensures var order', rest := Insert(order, k, missing[source].id), missing[..source] + missing[source + 1..];
            && Distinct(rest)
            && (forall o :: o in rest ==> o in obs && o.id !in order')
            && (forall o :: o in obs && o.id !in order' ==> o in rest)
  {
    hide Distinct;
    var x := missing[source];
    assert x in missing;
    var order', rest := Insert(order, k, x.id), missing[..source] + missing[source + 1..];
    RemoveOne(missing, source, x);
    forall o | o in rest ensures o in obs && o.id !in order' {
      RemoveOne(missing, source, o);
      InsertMembers(order, k, x.id, o.id);
    }
    forall o | o in obs && o.id !in order' ensures o in rest {
      RemoveOne(missing, source, o);
      InsertMembers(order, k, x.id, o.id);
    }
  }

  lemma StartPlacing<O, R,
      T>(obs: seq<Observation<O, R, T>>, candidate: seq<OperationId>, missing: seq<Observation<O, R, T>>)
    requires NoDuplicates(candidate) && Known(ById(obs), candidate) && Distinct(missing)
    requires forall o :: o in missing <==> o in obs && o.id !in candidate
    ensures Placing(obs, candidate, candidate, missing)
  {
  }

  lemma InsertMembers(ids: seq<OperationId>, k: nat, x: OperationId, id: OperationId)
    requires k <= |ids|
    ensures id in Insert(ids, k, x) <==> id in ids || id == x
  {
    var ids' := Insert(ids, k, x);
    assert ids'[k] == x;
    if id in ids {
      var i :| 0 <= i < |ids| && ids[i] == id;
      assert ids'[if i < k then i else i + 1] == id;
    }
  }

  lemma RemoveOne<O, R, T>(missing: seq<Observation<O, R, T>>, source: nat, o: Observation<O, R, T>)
    requires Distinct(missing) && source < |missing|
    ensures Distinct(missing[..source] + missing[source + 1..])
    ensures o in missing[..source] + missing[source + 1..] <==> o in missing && o.id != missing[source].id
  {
    var rest := missing[..source] + missing[source + 1..];
    if o in missing && o.id != missing[source].id {
      var i :| 0 <= i < |missing| && missing[i] == o;
      assert rest[if i < source then i else i - 1] == o;
    }
  }

  lemma SourceExists<O, R,
      T>(obs: seq<Observation<O, R, T>>, anchors: seq<OperationId>, order: seq<OperationId>, missing: seq<Observation<O,
          R, T>>)
    requires Sequential(obs) && Placing(obs, anchors, order, missing) && missing != []
    ensures exists k :: 0 <= k < |missing| && Unpreceded(missing, k)
  {
    forall i | 0 <= i < |missing| ensures missing[i] in obs {
      assert missing[i] in missing;
    }
    var k := SomeMinimal(missing);
    assert Unpreceded(missing, k);
  }

  lemma GapExists<O, R,
      T>(obs: seq<Observation<O, R, T>>, anchors: seq<OperationId>, order: seq<OperationId>, missing: seq<Observation<O,
          R, T>>, x: Observation<O, R, T>, after: nat, before: nat)
    requires Sequential(obs) && Placing(obs, anchors, order, missing) && Known(ById(obs), order)
        && Respects(ById(obs), order)
    requires x in missing && after <= |order| && before <= |order|
    requires 0 < after ==> Precedes(ById(obs)[order[after - 1]], x)
    requires before < |order| ==> Precedes(x, ById(obs)[order[before]])
    ensures after <= before
  {
    if 0 < after && before < |order| {
      PrecedesChain(obs, ById(obs)[order[after - 1]], x, ById(obs)[order[before]]);
    }
  }

  lemma PrecedesChain<O, R,
      T>(obs: seq<Observation<O, R, T>>, a: Observation<O, R, T>, x: Observation<O, R, T>, b: Observation<O, R, T>)
    requires Sequential(obs) && a in obs && x in obs && b in obs
    requires Precedes(a, x) && Precedes(x, b)
    ensures Precedes(a, b) && a != b
  {
    var i :| 0 <= i < |obs| && obs[i] == a;
    var j :| 0 <= j < |obs| && obs[j] == x;
    var k :| 0 <= k < |obs| && obs[k] == b;
    PrecedesIsStrictOrder(obs, i, j, k);
    PrecedesIsStrictOrder(obs, j, i, j);
  }

  lemma InsertKeeps<O, R,
      T>(m: map<OperationId, Observation<O, R, T>>, anchors: seq<OperationId>, order: seq<OperationId>,
          x: Observation<O, R, T>, k: nat)
    requires Known(m, order) && NoDuplicates(order) && KeepsOrder(anchors, order)
    requires x.id in m && m[x.id] == x && x.id !in order && x.id !in anchors && k <= |order|
    requires forall i :: k <= i < |order| ==> !Precedes(m[order[i]], x)
    requires forall i :: 0 <= i < k ==> !Precedes(x, m[order[i]])
    ensures var order' := Insert(order, k, x.id);
            && Known(m, order') && NoDuplicates(order') && KeepsOrder(anchors, order')
            && (Respects(m, order) ==> Respects(m, order'))
  {
  }

  lemma {:induction false} IdSetSize(ids: seq<OperationId>)
    ensures |set id | id in ids| <= |ids|
    ensures |set id | id in ids| == |ids| <==> NoDuplicates(ids)
  {
    if ids != [] {
      var front, last := ids[..|ids| - 1], ids[|ids| - 1];
      IdSetSize(front);
      assert ids == front + [last];
      assert (set id | id in ids) == (set id | id in front) + {last};
      assert NoDuplicates(ids) <==> NoDuplicates(front) && last !in front by {
        assert forall i :: 0 <= i < |front| ==> ids[i] == front[i];
      }
    }
  }
}

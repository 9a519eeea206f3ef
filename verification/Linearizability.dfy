/** The linearizability check: what it means for a candidate order to be a linearization of a
    history, and the checker that decides it by looking only at neighbours and last-seen numbers. */
module Linearizability {
  import opened Bus
  import opened History

  /** Outputs obtained by applying the operations in order agree with the observed ones. */
  function Replay<O, R, T,
      S>(m: map<OperationId, Observation<O, R, T>>, ids: seq<OperationId>, state: S,
          apply: (S, O, R) -> Option<S>): Option<S>
    requires Known(m, ids)
  {
    if ids == [] then Some(state) else
    match apply(state, m[ids[0]].operation, m[ids[0]].output)
    case None => None
    case Some(next) => Replay(m, ids[1..], next, apply)
  }

  ghost predicate WellFormed<O, R, T>(obs: seq<Observation<O, R, T>>) {
    Distinct(obs) && Sequential(obs) && Gapless(obs)
  }

  /** The candidate holds every operation once, keeps client order and real-time precedence on
      every pair, and its replay meets the specification. */
  ghost predicate IsLinearization<O, R, T,
      S>(obs: seq<Observation<O, R, T>>, candidate: seq<OperationId>, init: S, apply: (S, O, R) -> Option<S>) {
    && WellFormed(obs)
    && IsPermutation(obs, candidate)
    && Respects(ById(obs), candidate)
    && Replay(ById(obs), candidate, init, apply).Some?
  }

  /** The checker accepts exactly the linearizations. */
  method Verify<O, R, T,
      S>(obs: seq<Observation<O, R, T>>, candidate: seq<OperationId>, init: S, apply: (S, O, R) -> Option<S>)
        returns (ok: bool)
    ensures ok <==> IsLinearization(obs, candidate, init, apply)
  {
    hide Distinct, Sequential, Gapless, Respects, Known, IsPermutation, ClientOrdered, RealTimeOrdered;
    ok := CheckIds(obs, candidate);
    if !ok {
      return;
    }
    ok := CheckClients(obs);
    if !ok {
      return;
    }
    PermutationIsKnown(obs, candidate);
    RespectsIff(obs, candidate);
    ok := CheckClientOrder(candidate);
    if !ok {
      return;
    }
    ok := CheckRealTime(obs, candidate);
    if !ok {
      return;
    }
    ok := CheckReplay(ById(obs), candidate, init, apply);
  }

  lemma PermutationIsKnown<O, R, T>(obs: seq<Observation<O, R, T>>, candidate: seq<OperationId>)
    requires IsPermutation(obs, candidate)
    ensures Known(ById(obs), candidate) && NoDuplicates(candidate)
  {
  }

  method CheckIds<O, R, T>(obs: seq<Observation<O, R, T>>, candidate: seq<OperationId>) returns (ok: bool)
    ensures ok <==> Distinct(obs) && IsPermutation(obs, candidate)
  {
    hide Distinct, NoDuplicates, Known;
    var m := ById(obs);
    ByIdSize(obs);
    IdSetSize(candidate);
    KnownMembers(m, candidate);
    var ids := set id | id in candidate;
    ok := |m.Keys| == |obs| && |candidate| == |obs| && |ids| == |candidate| && forall id :: id in candidate ==> id in m;
    if ok {
      SameSize(ids, m.Keys);
      assert forall k :: 0 <= k < |obs| ==> obs[k].id in ids;
    }
  }

  lemma {:induction false} SameSize(small: set<OperationId>, large: set<OperationId>)
    requires small <= large && |small| == |large|
    ensures small == large
  {
    if small != {} {
      var x :| x in small;
      SameSize(small - {x}, large - {x});
    } else {
      assert large == {};
    }
  }

  // ---- sequential, gapless clients ----

  ghost predicate OnTime<O, R, T>(obs: seq<Observation<O, R, T>>) {
    forall i :: 0 <= i < |obs| ==> obs[i].start <= obs[i].end
  }

  ghost predicate SequentialClient<O, R, T>(obs: seq<Observation<O, R, T>>, client: nat) {
    forall a, b ::
        a in obs && b in obs && a.id.client == client && b.id.client == client
        && a.id.sequence < b.id.sequence ==>
        a.end <= b.start
  }

  ghost predicate GaplessClient<O, R, T>(obs: seq<Observation<O, R, T>>, client: nat) {
    forall a :: a in obs && a.id.client == client && 0 < a.id.sequence ==>
        Has(obs, OperationId(client, a.id.sequence - 1))
  }

  method CheckClients<O, R, T>(obs: seq<Observation<O, R, T>>) returns (ok: bool)
    requires Distinct(obs)
    ensures ok <==> Sequential(obs) && Gapless(obs)
  {
    hide Distinct, Sequential, Gapless, SequentialClient, GaplessClient;
    ClientsIff(obs);
    for n := 0 to |obs|
      invariant forall i :: 0 <= i < n ==> obs[i].start <= obs[i].end
    {
      if obs[n].end < obs[n].start {
        return false;
      }
    }
    var clients := set i | 0 <= i < |obs| :: obs[i].id.client;
    var rest := clients;
    while rest != {}
      invariant rest <= clients
      invariant forall c :: c in clients && c !in rest ==> SequentialClient(obs, c) && GaplessClient(obs, c)
    {
      var c :| c in rest;
      var good := CheckClient(obs, c);
      if !good {
        return false;
      }
      rest := rest - {c};
    }
    return true;
  }

  lemma ClientsIff<O, R, T>(obs: seq<Observation<O, R, T>>)
    ensures Sequential(obs) && Gapless(obs) <==>
            OnTime(obs) && forall c :: c in (set i | 0 <= i < |obs| :: obs[i].id.client) ==>
                SequentialClient(obs, c) && GaplessClient(obs, c)
  {
    var clients := set i | 0 <= i < |obs| :: obs[i].id.client;
    if OnTime(obs) && forall c :: c in clients ==> SequentialClient(obs, c) && GaplessClient(obs, c) {
      forall i | 0 <= i < |obs|
        ensures SequentialClient(obs, obs[i].id.client) && GaplessClient(obs, obs[i].id.client) {
        assert obs[i] in obs;
        assert obs[i].id.client in clients;
      }
    }
  }

  /** The operations of one client, in order of their sequence numbers. */
  ghost predicate IsClientOrder<O, R, T>(obs: seq<Observation<O, R, T>>, client: nat, own: seq<Observation<O, R, T>>) {
    && (forall i :: 0 <= i < |own| ==> own[i] in obs && own[i].id.client == client)
    && (forall o :: o in obs && o.id.client == client ==> o in own)
    && (forall i, j :: 0 <= i < j < |own| ==> own[i].id.sequence < own[j].id.sequence)
  }

  method SortClient<O, R, T>(obs: seq<Observation<O, R, T>>, client: nat) returns (own: seq<Observation<O, R, T>>)
    requires Distinct(obs)
    ensures IsClientOrder(obs, client, own)
  {
    own := [];
    for n := 0 to |obs|
      invariant IsClientOrder(obs[..n], client, own)
    {
      if obs[n].id.client == client {
        var k := |own|;
        while 0 < k && obs[n].id.sequence < own[k - 1].id.sequence
          invariant 0 <= k <= |own|
          invariant forall i :: k <= i < |own| ==> obs[n].id.sequence < own[i].id.sequence
        {
          k := k - 1;
        }
        FreshSequence(obs, n, client, own);
        InsertInOrder(obs, n, client, own, k);
        own := own[..k] + [obs[n]] + own[k..];
      } else {
        SkipOther(obs, n, client, own);
      }
    }
    assert obs[..|obs|] == obs;
  }

  lemma FreshSequence<O, R, T>(obs: seq<Observation<O, R, T>>, n: nat, client: nat, own: seq<Observation<O, R, T>>)
    requires Distinct(obs) && n < |obs| && obs[n].id.client == client && IsClientOrder(obs[..n], client, own)
    ensures forall i :: 0 <= i < |own| ==> own[i].id.sequence != obs[n].id.sequence
  {
    forall i | 0 <= i < |own| ensures own[i].id.sequence != obs[n].id.sequence {
      var k :| 0 <= k < n && obs[..n][k] == own[i];
      assert obs[k].id != obs[n].id;
    }
  }

  lemma InsertInOrder<O, R,
      T>(obs: seq<Observation<O, R, T>>, n: nat, client: nat, own: seq<Observation<O, R, T>>, k: nat)
    requires n < |obs| && obs[n].id.client == client && IsClientOrder(obs[..n], client, own) && k <= |own|
    requires forall i :: 0 <= i < k ==> own[i].id.sequence < obs[n].id.sequence
    requires forall i :: k <= i < |own| ==> obs[n].id.sequence < own[i].id.sequence
    ensures IsClientOrder(obs[..n + 1], client, own[..k] + [obs[n]] + own[k..])
  {
    var own' := own[..k] + [obs[n]] + own[k..];
    forall o ensures o in own' <==> o in own || o == obs[n] {
      InsertedMembers(own, k, obs[n], o);
    }
    forall o ensures o in obs[..n + 1] <==> o in obs[..n] || o == obs[n] {
      InPrefix(obs, n, o);
    }
  }

  lemma SkipOther<O, R, T>(obs: seq<Observation<O, R, T>>, n: nat, client: nat, own: seq<Observation<O, R, T>>)
    requires n < |obs| && obs[n].id.client != client && IsClientOrder(obs[..n], client, own)
    ensures IsClientOrder(obs[..n + 1], client, own)
  {
    assert obs[..n + 1] == obs[..n] + [obs[n]];
  }

  method CheckClient<O, R, T>(obs: seq<Observation<O, R, T>>, client: nat) returns (ok: bool)
    requires Distinct(obs) && OnTime(obs)
    ensures ok <==> SequentialClient(obs, client) && GaplessClient(obs, client)
  {
    hide Distinct, SequentialClient, GaplessClient, OnTime, IsClientOrder;
    hide Numbered, Spaced;
    var own := SortClient(obs, client);
    NeighboursIff(obs, client, own);
    ok := CheckNumbers(own);
    if ok {
      ok := CheckSpacing(own);
    }
  }

  method CheckNumbers<O, R, T>(own: seq<Observation<O, R, T>>) returns (ok: bool)
    ensures ok <==> Numbered(own)
  {
    for n := 0 to |own|
      invariant forall i :: 0 <= i < n ==> own[i].id.sequence == i
    {
      if own[n].id.sequence != n {
        return false;
      }
    }
    return true;
  }

  method CheckSpacing<O, R, T>(own: seq<Observation<O, R, T>>) returns (ok: bool)
    ensures ok <==> Spaced(own)
  {
    var n := 1;
    while n < |own|
      invariant 1 <= n
      invariant forall i, j :: 0 <= i < j < n && j < |own| && j == i + 1 ==> own[i].end <= own[j].start
    {
      var before, after := own[n - 1], own[n];
      if after.start < before.end {
        return false;
      }
      n := n + 1;
    }
    return true;
  }

  ghost predicate Numbered<O, R, T>(own: seq<Observation<O, R, T>>) {
    forall i :: 0 <= i < |own| ==> own[i].id.sequence == i
  }

  ghost predicate Spaced<O, R, T>(own: seq<Observation<O, R, T>>) {
    forall i, j :: 0 <= i < j < |own| && j == i + 1 ==> own[i].end <= own[j].start
  }

  /** What the checker sees of one client: positions are sequence numbers, neighbours do not overlap. */
  ghost predicate Neighbourly<O, R, T>(own: seq<Observation<O, R, T>>) {
    Numbered(own) && Spaced(own)
  }

  lemma NeighboursIff<O, R, T>(obs: seq<Observation<O, R, T>>, client: nat, own: seq<Observation<O, R, T>>)
    requires OnTime(obs) && IsClientOrder(obs, client, own)
    ensures Neighbourly(own) <==> SequentialClient(obs, client) && GaplessClient(obs, client)
  {
    if Neighbourly(own) {
      NeighboursSuffice(obs, client, own);
    }
    if SequentialClient(obs, client) && GaplessClient(obs, client) {
      forall i | 0 <= i < |own| ensures own[i].id.sequence == i {
        GaplessPosition(obs, client, own, i);
      }
    }
  }

  lemma NeighboursSuffice<O, R, T>(obs: seq<Observation<O, R, T>>, client: nat, own: seq<Observation<O, R, T>>)
    requires OnTime(obs) && IsClientOrder(obs, client, own) && Neighbourly(own)
    ensures SequentialClient(obs, client) && GaplessClient(obs, client)
  {
    forall a | a in obs && a.id.client == client && 0 < a.id.sequence
      ensures Has(obs, OperationId(client, a.id.sequence - 1)) {
      var i :| 0 <= i < |own| && own[i] == a;
      var k :| 0 <= k < |obs| && obs[k] == own[i - 1];
      assert obs[k].id == OperationId(client, a.id.sequence - 1);
    }
    forall a, b | a in obs && b in obs && a.id.client == client && b.id.client == client
        && a.id.sequence < b.id.sequence ensures a.end <= b.start {
      var i :| 0 <= i < |own| && own[i] == a;
      var j :| 0 <= j < |own| && own[j] == b;
      NoOverlap(obs, client, own, i, j);
    }
  }

  lemma {:induction false} NoOverlap<O, R,
      T>(obs: seq<Observation<O, R, T>>, client: nat, own: seq<Observation<O, R, T>>, i: nat, j: nat)
    requires OnTime(obs) && IsClientOrder(obs, client, own) && Neighbourly(own) && i < j < |own|
    ensures own[i].end <= own[j].start
    decreases j - i
  {
    if i + 1 < j {
      NoOverlap(obs, client, own, i, j - 1);
      var k :| 0 <= k < |obs| && obs[k] == own[j - 1];
      assert own[j - 1].end <= own[j - 1 + 1].start;
    }
  }

  lemma {:induction false} GaplessPosition<O, R,
      T>(obs: seq<Observation<O, R, T>>, client: nat, own: seq<Observation<O, R, T>>, i: nat)
    requires IsClientOrder(obs, client, own) && GaplessClient(obs, client) && i < |own|
    ensures own[i].id.sequence == i
  {
    hide IsClientOrder, GaplessClient;
    SortedSequences(obs, client, own);
    if 0 < i {
      GaplessPosition(obs, client, own, i - 1);
      assert own[i - 1].id.sequence < own[i].id.sequence;
    }
    if 0 < own[i].id.sequence {
      var _ := Predecessor(obs, client, own, i);
    }
  }

  lemma SortedSequences<O, R, T>(obs: seq<Observation<O, R, T>>, client: nat, own: seq<Observation<O, R, T>>)
    requires IsClientOrder(obs, client, own)
    ensures forall i, j :: 0 <= i < j < |own| ==> own[i].id.sequence < own[j].id.sequence
  {
  }

  lemma Predecessor<O, R, T>(obs: seq<Observation<O, R, T>>, client: nat, own: seq<Observation<O, R, T>>, i: nat)
    returns (j: nat)
    requires IsClientOrder(obs, client, own) && GaplessClient(obs, client) && i < |own| && 0 < own[i].id.sequence
    ensures j < |own| && own[j].id.sequence == own[i].id.sequence - 1
  {
    assert own[i] in obs;
    var k :| 0 <= k < |obs| && obs[k].id == OperationId(client, own[i].id.sequence - 1);
    assert obs[k] in own;
    j :| 0 <= j < |own| && own[j] == obs[k];
  }

  // ---- order of the candidate ----

  ghost predicate ClientOrdered(candidate: seq<OperationId>) {
    forall i, j :: 0 <= i < j < |candidate| && candidate[i].client == candidate[j].client ==>
        candidate[i].sequence < candidate[j].sequence
  }

  lemma EmptyIsOrdered(candidate: seq<OperationId>)
    ensures ClientOrdered(candidate[..0])
  {
  }

  lemma OrderBroken(candidate: seq<OperationId>, i: nat, n: nat)
    requires i < n < |candidate| && candidate[i].client == candidate[n].client
        && candidate[n].sequence <= candidate[i].sequence
    ensures !ClientOrdered(candidate)
  {
  }

  lemma OrderExtends(candidate: seq<OperationId>, n: nat)
    requires n < |candidate| && ClientOrdered(candidate[..n])
    requires forall i :: 0 <= i < n && candidate[i].client == candidate[n].client ==>
        candidate[i].sequence < candidate[n].sequence
    ensures ClientOrdered(candidate[..n + 1])
  {
    assert forall i :: 0 <= i < n ==> candidate[..n + 1][i] == candidate[..n][i];
  }

  /** Compares each id with the last one seen of its client. */
  method CheckClientOrder(candidate: seq<OperationId>) returns (ok: bool)
    ensures ok <==> ClientOrdered(candidate)
  {
    hide ClientOrdered;
    var last: map<nat, nat> := map[];
    EmptyIsOrdered(candidate);
    for n := 0 to |candidate|
      invariant ClientOrdered(candidate[..n])
      invariant forall i :: 0 <= i < n ==>
          candidate[i].client in last && candidate[i].sequence <= last[candidate[i].client]
      invariant forall c :: c in last ==> exists i :: 0 <= i < n && candidate[i] == OperationId(c, last[c])
    {
      var id := candidate[n];
      if id.client in last && id.sequence <= last[id.client] {
        var i :| 0 <= i < n && candidate[i] == OperationId(id.client, last[id.client]);
        OrderBroken(candidate, i, n);
        return false;
      }
      OrderExtends(candidate, n);
      last := last[id.client := id.sequence];
    }
    assert candidate[..|candidate|] == candidate;
    return true;
  }

  /** Operations that ended before another started come earlier in the candidate. */
  ghost predicate RealTimeOrdered<O, R, T>(m: map<OperationId, Observation<O, R, T>>, candidate: seq<OperationId>)
    requires Known(m, candidate)
  {
    forall i, j :: 0 <= i < |candidate| && 0 <= j < |candidate| && m[candidate[i]].end < m[candidate[j]].start ==> i < j
  }

  lemma RespectsIff<O, R, T>(obs: seq<Observation<O, R, T>>, candidate: seq<OperationId>)
    requires Sequential(obs) && IsPermutation(obs, candidate)
    ensures Known(ById(obs), candidate)
    ensures Respects(ById(obs), candidate) <==> ClientOrdered(candidate) && RealTimeOrdered(ById(obs), candidate)
  {
    var m := ById(obs);
    if Respects(m, candidate) {
      forall i, j | 0 <= i < j < |candidate| && candidate[i].client == candidate[j].client
        ensures candidate[i].sequence < candidate[j].sequence {
        assert !Precedes(m[candidate[j]], m[candidate[i]]) && candidate[i] != candidate[j];
      }
      forall i, j | 0 <= i < |candidate| && 0 <= j < |candidate| && m[candidate[i]].end < m[candidate[j]].start
        ensures i < j {
        assert Precedes(m[candidate[i]], m[candidate[j]]);
        OnTimeById(obs, candidate[i]);
      }
    }
  }

  lemma OnTimeById<O, R, T>(obs: seq<Observation<O, R, T>>, id: OperationId)
    requires Sequential(obs) && id in ById(obs)
    ensures ById(obs)[id].start <= ById(obs)[id].end
  {
    var k :| 0 <= k < |obs| && obs[k] == ById(obs)[id];
  }

  /** Where each id stands in the candidate. */
  ghost predicate ArePositions(candidate: seq<OperationId>, positions: map<OperationId, nat>) {
    forall k :: 0 <= k < |candidate| ==> candidate[k] in positions && positions[candidate[k]] == k
  }

  method Positions(candidate: seq<OperationId>) returns (positions: map<OperationId, nat>)
    requires NoDuplicates(candidate)
    ensures ArePositions(candidate, positions)
  {
    positions := map[];
    for n := 0 to |candidate|
      invariant forall k :: 0 <= k < n ==> candidate[k] in positions && positions[candidate[k]] == k
    {
      positions := positions[candidate[n] := n];
    }
  }

  method CheckRealTime<O, R, T>(obs: seq<Observation<O, R, T>>, candidate: seq<OperationId>) returns (ok: bool)
    requires Distinct(obs) && IsPermutation(obs, candidate) && Known(ById(obs), candidate)
    ensures ok <==> RealTimeOrdered(ById(obs), candidate)
  {
    hide Distinct, Known, RealTimeOrdered, ArePositions, IsPermutation, NoDuplicates;
    PermutationIsKnown(obs, candidate);
    var positions := Positions(candidate);
    for b := 0 to |obs|
      invariant forall x, y :: 0 <= x < b && 0 <= y < |obs| ==> InPlace(positions, obs[x], obs[y])
    {
      var good := CheckFrom(obs, candidate, positions, b);
      if !good {
        return false;
      }
    }
    PairsSuffice(obs, candidate, positions);
    return true;
  }

  /** Operation `b` stands before every operation that started after it ended. */
  method CheckFrom<O, R,
      T>(obs: seq<Observation<O, R, T>>, candidate: seq<OperationId>, positions: map<OperationId, nat>, b: nat)
        returns (ok: bool)
    requires Distinct(obs) && IsPermutation(obs, candidate) && Known(ById(obs), candidate)
        && ArePositions(candidate, positions)
    requires b < |obs|
    ensures ok ==> forall y :: 0 <= y < |obs| ==> InPlace(positions, obs[b], obs[y])
    ensures !ok ==> !RealTimeOrdered(ById(obs), candidate)
  {
    hide Distinct, Known, RealTimeOrdered, ArePositions, IsPermutation;
    PlaceOf(obs, candidate, positions, b);
    for a := 0 to |obs|
      invariant forall y :: 0 <= y < a ==> InPlace(positions, obs[b], obs[y])
    {
      PlaceOf(obs, candidate, positions, a);
      if obs[b].end < obs[a].start && !(positions[obs[b].id] < positions[obs[a].id]) {
        OutOfPlace(obs, candidate, positions, b, a);
        return false;
      }
    }
    return true;
  }

  lemma PlaceOf<O, R, T>(obs: seq<Observation<O, R, T>>, candidate: seq<OperationId>, positions: map<OperationId, nat>,
      k: nat)
    requires IsPermutation(obs, candidate) && ArePositions(candidate, positions) && k < |obs|
    ensures obs[k].id in positions && positions[obs[k].id] < |candidate| && candidate[positions[obs[k].id]] == obs[k].id
  {
    assert obs[k].id in candidate;
  }

  lemma OutOfPlace<O, R,
      T>(obs: seq<Observation<O, R, T>>, candidate: seq<OperationId>, positions: map<OperationId, nat>, b: nat, a: nat)
    requires Distinct(obs) && IsPermutation(obs, candidate) && Known(ById(obs), candidate)
        && ArePositions(candidate, positions)
    requires a < |obs| && b < |obs| && !InPlace(positions, obs[b], obs[a])
    ensures !RealTimeOrdered(ById(obs), candidate)
  {
    PlaceOf(obs, candidate, positions, a);
    PlaceOf(obs, candidate, positions, b);
    ByIdLookup(obs, obs[a]);
    ByIdLookup(obs, obs[b]);
  }

  predicate InPlace<O, R,
      T>(positions: map<OperationId, nat>, before: Observation<O, R, T>, after: Observation<O, R, T>) {
    before.end < after.start ==>
        before.id in positions && after.id in positions && positions[before.id] < positions[after.id]
  }

  lemma PairsSuffice<O, R,
      T>(obs: seq<Observation<O, R, T>>, candidate: seq<OperationId>, positions: map<OperationId, nat>)
    requires Known(ById(obs), candidate) && ArePositions(candidate, positions)
    requires forall x, y :: 0 <= x < |obs| && 0 <= y < |obs| ==> InPlace(positions, obs[x], obs[y])
    ensures RealTimeOrdered(ById(obs), candidate)
  {
  }

  method CheckReplay<O, R, T,
      S>(m: map<OperationId, Observation<O, R, T>>, candidate: seq<OperationId>, init: S, apply: (S, O, R) -> Option<S>)
        returns (ok: bool)
    requires Known(m, candidate)
    ensures ok <==> Replay(m, candidate, init, apply).Some?
  {
    var state := init;
    for n := 0 to |candidate|
      invariant Replay(m, candidate, init, apply) == Replay(m, candidate[n..], state, apply)
    {
      var o := m[candidate[n]];
      assert candidate[n..][0] == candidate[n] && candidate[n..][1..] == candidate[n + 1..];
      match apply(state, o.operation, o.output) {
        case None => return false;
        case Some(next) => state := next;
      }
    }
    return true;
  }
}

/** The in-memory commit service of one bus: policy versions adopted by compare-and-set, a shared
    replay cursor, decisions produced by replaying the log, and a drain abort. */
module CommitService {
  import opened Bus

  const CONSTRAINT_REASON := "policy version constraint not satisfied"
  const APPROVED_REASON := "approved: ON_BY_DEFAULT policy; in-memory service does not run voters"
  const DENIED_REASON := "denied: OFF_BY_DEFAULT policy; in-memory service does not run voters"
  const DEFAULT_REASON := "decided by policy"
  const DRAIN_REASON := "no decision before the log was drained"
  const READ_LIMIT := 64

  datatype Policy = Policy(version: int, kind: int)

  datatype ReplayState = ReplayState(next: nat, policy: Option<Policy>, pending: Option<int>) {
    function Version(): Option<int> {
      if policy.Some? then Some(policy.value.version) else None
    }
    function Kind(): int {
      if policy.Some? then policy.value.kind else ON_BY_DEFAULT
    }
  }

  datatype Processed = Rejected | Accepted(state: ReplayState, output: Option<Payload>)

  predicate Recognized(raw: int) {
    raw == OFF_BY_DEFAULT || raw == ON_BY_DEFAULT || raw == FIRST_BOOLEAN_WINS
  }

  function Decide(id: int, approved: bool, reason: string): Payload {
    if approved then Commit(id, reason) else Abort(id, reason)
  }

  /** Whether a policy batch applies to the version in force. */
  predicate Applies(batch: Payload, version: Option<int>) {
    batch.PolicyBatch? && batch.expected == version && (version.Some? ==> batch.newVersion > version.value)
  }

  predicate Meets(version: Option<int>, c: Constraint) {
    match c
    case Unconstrained => true
    case Required(v) => version == Some(v)
    case Minimum(v) => version.Some? && version.value >= v
  }

  /** Effect of one entry on the replay state (its cursor aside), and the decision it produces. */
  function ProcessEntry(st: ReplayState, e: Payload, position: nat): Processed {
    match e
    case PolicyBatch(_, newVersion, raw) =>
      if !Applies(e, st.Version()) then Accepted(st, None)
      else if raw.None? then Accepted(st.(policy := Some(Policy(newVersion, st.Kind()))), None)
      else if Recognized(raw.value) then
          Accepted(st.(policy := Some(Policy(newVersion, raw.value)), pending := None), None)
      else Rejected
    case Intention(_, constraint) =>
      if !Meets(st.Version(), constraint) then Accepted(st, Some(Decide(position, false, CONSTRAINT_REASON)))
      else if st.Kind() == ON_BY_DEFAULT then Accepted(st, Some(Decide(position, true, APPROVED_REASON)))
      else if st.Kind() == OFF_BY_DEFAULT then Accepted(st, Some(Decide(position, false, DENIED_REASON)))
      else Accepted(st.(pending := Some(position)), None)
    case Vote(id, ballot, reason) =>
      if st.pending != Some(id) || ballot.None? then Accepted(st, None)
      else Accepted(st.(pending := None),
          Some(Decide(id, ballot.value, if reason == "" then DEFAULT_REASON else reason)))
    case Commit(id, _) => Accepted(if st.pending == Some(id) then st.(pending := None) else st, None)
    case Abort(id, _) => Accepted(if st.pending == Some(id) then st.(pending := None) else st, None)
    case _ => Accepted(st, None)
  }

  const Start := ReplayState(0, None, None)

  /** Replay state of log[..n]; none when an entry of log[..n] is rejected. */
  function Fold(log: seq<Payload>, n: nat): Option<ReplayState>
    requires n <= |log|
  {
    if n == 0 then Some(Start)
    else
      match Fold(log, n - 1)
      case None => None
      case Some(st) =>
        match ProcessEntry(st, log[n - 1], n - 1)
        case Rejected => None
        case Accepted(st', _) => Some(st'.(next := n))
  }

  lemma {:induction false} FoldOfPrefix(log: seq<Payload>, more: seq<Payload>, n: nat)
    requires n <= |log|
    ensures Fold(log + more, n) == Fold(log, n)
  {
    if n > 0 {
      FoldOfPrefix(log, more, n - 1);
    }
  }

  // ---- at most one decision per intention ----

  function DecisionId(e: Payload): int
    requires e.IsDecision()
  {
    if e.Commit? then e.committed else e.aborted
  }

  /** Decisions name consumed, earlier intentions, each at most once, and never the pending one. */
  ghost predicate DecisionInv(log: seq<Payload>, st: ReplayState) {
    && st.next <= |log|
    && (forall q :: 0 <= q < |log| && log[q].IsDecision() ==>
        0 <= DecisionId(log[q]) < q && DecisionId(log[q]) < st.next && log[DecisionId(log[q])].Intention?)
    && (forall q, r :: 0 <= q < r < |log| && log[q].IsDecision() && log[r].IsDecision() ==>
        DecisionId(log[q]) != DecisionId(log[r]))
    && (st.pending.Some? ==>
        0 <= st.pending.value < st.next && log[st.pending.value].Intention? && Undecided(log, st.pending.value))
  }

  ghost predicate Undecided(log: seq<Payload>, p: int) {
    forall q :: 0 <= q < |log| && log[q].IsDecision() ==> DecisionId(log[q]) != p
  }

  /** The log after processing the entry at the cursor. */
  function Emit(log: seq<Payload>, output: Option<Payload>): seq<Payload> {
    if output.Some? then log + [output.value] else log
  }

  /** What processing can do: decide the new intention, or the pending one, or hold the new one. */
  lemma ProcessOutcome(st: ReplayState, e: Payload, position: nat)
    requires ProcessEntry(st, e, position).Accepted?
    ensures var r := ProcessEntry(st, e, position);
            && r.state.next == st.next
            && (r.state.pending == st.pending || r.state.pending == None
                || (e.Intention? && r.state.pending == Some(position)))
            && (r.output.Some? ==> r.output.value.IsDecision() && !e.IsDecision())
            && (r.output.Some? && e.Intention? ==>
                DecisionId(r.output.value) == position && r.state.pending == st.pending)
            && (r.output.Some? && !e.Intention? ==>
                st.pending == Some(DecisionId(r.output.value)) && r.state.pending == None)
  {
  }

  /** Consuming the entry at the cursor and logging its output keeps decisions unique. */
  lemma ConsumeKeepsDecisions(log: seq<Payload>, st: ReplayState)
    requires DecisionInv(log, st) && st.next < |log| && ProcessEntry(st, log[st.next], st.next).Accepted?
    ensures var r := ProcessEntry(st, log[st.next], st.next);
            DecisionInv(Emit(log, r.output), r.state.(next := st.next + 1))
  {
    hide ProcessEntry;
    var r := ProcessEntry(st, log[st.next], st.next);
    ProcessOutcome(st, log[st.next], st.next);
    var st' := r.state.(next := st.next + 1);
    assert Undecided(log, st.next);
    assert DecisionInv(log, st');
    if r.output.Some? {
      LogDecision(log, st', r.output.value);
    }
  }

  /** Logging the first decision of a consumed intention that is not pending. */
  lemma LogDecision(log: seq<Payload>, st: ReplayState, d: Payload)
    requires DecisionInv(log, st) && d.IsDecision() && 0 <= DecisionId(d) < st.next && log[DecisionId(d)].Intention?
    requires Undecided(log, DecisionId(d)) && st.pending != Some(DecisionId(d))
    ensures DecisionInv(log + [d], st)
  {
  }

  /** A drain abort for an undecided, consumed intention keeps decisions unique. */
  lemma DrainKeepsDecisions(log: seq<Payload>, st: ReplayState, p: nat)
    requires DecisionInv(log, st) && p < st.next && log[p].Intention? && Undecided(log, p)
    ensures DecisionInv(log + [Abort(p, DRAIN_REASON)],
        st.(pending := if st.pending == Some(p) then None else st.pending))
  {
    LogDecision(log, st.(pending := if st.pending == Some(p) then None else st.pending), Abort(p, DRAIN_REASON));
  }

  lemma AppendKeepsDecisions(log: seq<Payload>, st: ReplayState, e: Payload)
    requires DecisionInv(log, st) && !e.IsDecision()
    ensures DecisionInv(log + [e], st)
  {
  }

  /** The cursor's state is the fold of what it has consumed. */
  ghost predicate Synced(log: seq<Payload>, st: ReplayState) {
    st.next <= |log| && Fold(log, st.next) == Some(st)
  }

  lemma ConsumeKeepsSync(log: seq<Payload>, st: ReplayState)
    requires Synced(log, st) && st.next < |log| && ProcessEntry(st, log[st.next], st.next).Accepted?
    ensures var r := ProcessEntry(st, log[st.next], st.next);
            Synced(Emit(log, r.output), r.state.(next := st.next + 1))
  {
    var r := ProcessEntry(st, log[st.next], st.next);
    if r.output.Some? {
      FoldOfPrefix(log, [r.output.value], st.next + 1);
    }
  }

  /** Clearing `pending` before the drain abort is replayed is harmless: replaying it clears the same. */
  lemma DrainedSyncs(log: seq<Payload>, st: ReplayState, p: nat)
    requires Synced(log, st) && st.next == |log|
    ensures var log' := log + [Abort(p, DRAIN_REASON)];
            var cleared := st.(pending := if st.pending == Some(p) then None else st.pending);
            && ProcessEntry(cleared, log'[|log|], |log|) == Accepted(cleared, None)
            && Synced(log', cleared.(next := |log'|))
  {
    FoldOfPrefix(log, [Abort(p, DRAIN_REASON)], |log|);
  }

  // ---- work left, the termination measure of replay ----

  /** Unconsumed entries, those that can still produce a decision counted twice. */
  function Work(log: seq<Payload>, n: nat): nat
    requires n <= |log|
    decreases |log| - n
  {
    if n == |log| then 0 else (if log[n].IsDecision() then 1 else 2) + Work(log, n + 1)
  }

  lemma {:induction false} WorkOfDecision(log: seq<Payload>, d: Payload, n: nat)
    requires n <= |log| && d.IsDecision()
    ensures Work(log + [d], n) == Work(log, n) + 1
    decreases |log| - n
  {
    if n < |log| {
      WorkOfDecision(log, d, n + 1);
    } else {
      assert Work(log + [d], n + 1) == 0;
    }
  }

  /** Decisions produce no further output, so consuming an entry always leaves less work. */
  lemma ConsumeLeavesLessWork(log: seq<Payload>, st: ReplayState)
    requires st.next < |log| && ProcessEntry(st, log[st.next], st.next).Accepted?
    ensures Work(Emit(log, ProcessEntry(st, log[st.next], st.next).output), st.next + 1) < Work(log, st.next)
  {
    hide ProcessEntry;
    ProcessOutcome(st, log[st.next], st.next);
    var out := ProcessEntry(st, log[st.next], st.next).output;
    if out.Some? {
      WorkOfDecision(log, out.value, st.next + 1);
    }
  }

  // ---- policy versions ----

  /** The version a replay of log[..n] reaches. */
  function VersionAfter(log: seq<Payload>, n: nat): Option<int>
    requires n <= |log|
  {
    if n == 0 then None
    else if Applies(log[n - 1], VersionAfter(log, n - 1)) then Some(log[n - 1].newVersion)
    else VersionAfter(log, n - 1)
  }

  lemma {:induction false} VersionOfPrefix(log: seq<Payload>, more: seq<Payload>, n: nat)
    requires n <= |log|
    ensures VersionAfter(log + more, n) == VersionAfter(log, n)
  {
    if n > 0 {
      VersionOfPrefix(log, more, n - 1);
    }
  }

  lemma {:induction false} FoldVersion(log: seq<Payload>, n: nat)
    requires n <= |log| && Fold(log, n).Some?
    ensures Fold(log, n).value.Version() == VersionAfter(log, n)
  {
    if n > 0 {
      FoldVersion(log, n - 1);
    }
  }

  /** Adopted versions only grow. */
  lemma {:induction false} VersionsGrow(log: seq<Payload>, n: nat, n': nat)
    requires n <= n' <= |log| && VersionAfter(log, n).Some?
    ensures VersionAfter(log, n').Some? && VersionAfter(log, n).value <= VersionAfter(log, n').value
    decreases n'
  {
    if n < n' {
      VersionsGrow(log, n, n' - 1);
    }
  }

  ghost predicate BatchesRecognized(log: seq<Payload>) {
    forall k :: 0 <= k < |log| && log[k].PolicyBatch? && log[k].deciderPolicy.Some? ==>
        Recognized(log[k].deciderPolicy.value)
  }

  /** A cached version is right when it is the version a replay of the whole log reaches. */
  ghost predicate VersionCached(log: seq<Payload>, cached: Option<int>) {
    cached == VersionAfter(log, |log|)
  }

  /** A batch carrying the cached version as its expectation is adopted, so updating the cache with it stays right. */
  lemma ReconcileKeepsVersion(log: seq<Payload>, cached: Option<int>, version: int, raw: Option<int>)
    requires VersionCached(log, cached) && (cached.Some? ==> version > cached.value)
    ensures VersionCached(log + [PolicyBatch(cached, version, raw)], Some(version))
  {
    VersionOfPrefix(log, [PolicyBatch(cached, version, raw)], |log|);
  }

  lemma OtherEntriesKeepVersion(log: seq<Payload>, cached: Option<int>, more: seq<Payload>)
    requires VersionCached(log, cached) && forall k :: 0 <= k < |more| ==> !more[k].PolicyBatch?
    ensures VersionCached(log + more, cached)
  {
    VersionOfPrefix(log, more, |log|);
    VersionAcross(log + more, |log|, |log + more|);
  }

  lemma {:induction false} VersionAcross(log: seq<Payload>, n: nat, n': nat)
    requires n <= n' <= |log| && forall k :: n <= k < n' ==> !log[k].PolicyBatch?
    ensures VersionAfter(log, n') == VersionAfter(log, n)
    decreases n'
  {
    if n < n' {
      VersionAcross(log, n, n' - 1);
    }
  }

  /** The cache after `create_bus` appended its batch. */
  function CreatedCache(log: seq<Payload>, cached: Option<int>, version: int): Option<int> {
    if |log| == 0 && cached.None? then Some(version) else cached
  }

  /** `create_bus` keeps the cache right exactly when the bus is empty or a policy was already adopted. */
  lemma CreateBusKeepsVersionIff(log: seq<Payload>, cached: Option<int>, version: int, raw: Option<int>)
    requires VersionCached(log, cached)
    ensures VersionCached(log + [PolicyBatch(None, version, raw)], CreatedCache(log, cached, version)) <==>
        |log| == 0 || cached.Some?
  {
    VersionOfPrefix(log, [PolicyBatch(None, version, raw)], |log|);
  }

  /** The log after a reconcile with the provider at `version`. */
  function Reconciled(log: seq<Payload>, cached: Option<int>, version: int, raw: Option<int>): seq<Payload> {
    if cached.None? || version > cached.value then log + [PolicyBatch(cached, version, raw)] else log
  }

  /** An intention submitted after a reconcile meets its minimum version exactly when the cache was right
      before the call or the version in force was already high enough. */
  lemma ConstraintMetIff(log: seq<Payload>, cached: Option<int>, version: int, raw: Option<int>)
    ensures var log' := Reconciled(log, cached, version, raw);
            var inForce := VersionAfter(log, |log|);
            Meets(VersionAfter(log', |log'|), Minimum(version)) <==>
            cached == inForce || (inForce.Some? && inForce.value >= version)
  {
    VersionOfPrefix(log, [PolicyBatch(cached, version, raw)], |log|);
  }

  /** After `create_bus` at version v on a used bus without a policy, an intention submitted with the provider
      at version d is aborted for its constraint exactly when the provider has moved on: d > v. */
  lemma CreateBusAbortsIff(log: seq<Payload>, v: int, raw: Option<int>, d: int, raw': Option<int>)
    requires log != [] && VersionCached(log, None)
    ensures var created := log + [PolicyBatch(None, v, raw)];
            var log' := Reconciled(created, CreatedCache(log, None, v), d, raw');
            !Meets(VersionAfter(log', |log'|), Minimum(d)) <==> d > v
  {
    var created := log + [PolicyBatch(None, v, raw)];
    VersionOfPrefix(log, [PolicyBatch(None, v, raw)], |log|);
    ConstraintMetIff(created, None, d, raw');
  }

  /** The failing case at work: entry, `create_bus`, then a reconcile whose batch replay ignores;
      an intention submitted next is aborted for its version constraint. */
  lemma CreateBusOnUsedBusBreaksConstraint(body: Body)
    ensures var log := [Mail, PolicyBatch(None, 1, Some(ON_BY_DEFAULT)), PolicyBatch(None, 2, Some(ON_BY_DEFAULT)),
        Intention(body, Minimum(2))];
            && CreatedCache([Mail], None, 1) == None
            && Fold(log, 3).Some?
            && ProcessEntry(Fold(log, 3).value, log[3], 3).output == Some(Abort(3, CONSTRAINT_REASON))
  {
    var log := [Mail, PolicyBatch(None, 1, Some(ON_BY_DEFAULT)), PolicyBatch(None, 2, Some(ON_BY_DEFAULT)),
        Intention(body, Minimum(2))];
    assert Fold(log, 1) == Some(ReplayState(1, None, None));
    assert Fold(log, 2) == Some(ReplayState(2, Some(Policy(1, ON_BY_DEFAULT)), None));
    assert Fold(log, 3) == Some(ReplayState(3, Some(Policy(1, ON_BY_DEFAULT)), None));
  }

  /** An intention that met its constraint is decided by the policy in force, of at least the
      version the submitter read, and never aborted for its constraint. */
  lemma MetIntentionFollowsPolicy(log: seq<Payload>, p: nat, version: int)
    requires p < |log| && log[p].Intention? && log[p].constraint == Minimum(version) && Fold(log, p).Some?
    requires Meets(VersionAfter(log, p), log[p].constraint)
    ensures var st := Fold(log, p).value;
            && st.policy.Some? && st.policy.value.version >= version
            && ProcessEntry(st, log[p], p) == (
                if st.policy.value.kind == ON_BY_DEFAULT then Accepted(st, Some(Commit(p, APPROVED_REASON)))
                else if st.policy.value.kind == OFF_BY_DEFAULT then Accepted(st, Some(Abort(p, DENIED_REASON)))
                else Accepted(st.(pending := Some(p)), None))
  {
    FoldVersion(log, p);
  }
}

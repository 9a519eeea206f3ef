/** The service object of one bus: `replay` as a loop over the log it also writes, and the calls
    around it. Each method runs as one step, the bus having no yield point of its own. */
module InMemCommitService {
  import opened Bus
  import opened CommitService
  import opened CommitPolicy

  datatype Outcome = Outcome(approved: bool, reason: string, position: nat)
  datatype CommitResult<T> = Ok(value: T) | Internal

  datatype PolicyState = PolicyState(version: int, deciderPolicy: Option<int>) {
    /** `get_decider_policy` succeeds. */
    predicate Usable() {
      deciderPolicy.Some? && Recognized(deciderPolicy.value)
    }

    lemma UsableIff()
      ensures Usable() <==> deciderPolicy in {Some(0), Some(1), Some(2)}
    {
    }
  }

  function LoggedOutcome(e: Payload, p: nat): Option<Outcome> {
    match e
    case Commit(id, reason) => if id == p then Some(Outcome(true, reason, p)) else None
    case Abort(id, reason) => if id == p then Some(Outcome(false, reason, p)) else None
    case _ => None
  }

  // ---- every decision has a cause in the log ----

  /** The decision a replay from position 0 produces at k. */
  function Output(log: seq<Payload>, k: nat): Option<Payload>
    requires k < |log|
  {
    match Fold(log, k)
    case None => None
    case Some(st) =>
      match ProcessEntry(st, log[k], k)
      case Rejected => None
      case Accepted(_, output) => output
  }

  predicate IsDrain(e: Payload) {
    e.Abort? && e.abortReason == DRAIN_REASON
  }

  ghost predicate HasCause(log: seq<Payload>, n: nat, d: Payload)
    requires n <= |log|
  {
    exists k :: 0 <= k < n && Output(log, k) == Some(d)
  }

  /** What replaying log[..n] produces is logged, and each logged decision was produced there or is a drain abort. */
  ghost predicate Caused(log: seq<Payload>, n: nat) {
    && n <= |log|
    && (forall k :: 0 <= k < n && Output(log, k).Some? ==> Output(log, k).value in log)
    && (forall q :: 0 <= q < |log| && log[q].IsDecision() ==> IsDrain(log[q]) || HasCause(log, n, log[q]))
  }

  lemma OutputOfPrefix(log: seq<Payload>, more: seq<Payload>, k: nat)
    requires k < |log|
    ensures Output(log + more, k) == Output(log, k)
  {
    hide ProcessEntry;
    FoldOfPrefix(log, more, k);
  }

  lemma CausePersists(log: seq<Payload>, more: seq<Payload>, n: nat, n': nat, d: Payload)
    requires n <= n' <= |log| && HasCause(log, n, d)
    ensures HasCause(log + more, n', d)
  {
    hide Output;
    var k :| 0 <= k < n && Output(log, k) == Some(d);
    OutputOfPrefix(log, more, k);
  }

  /** Logging a drain abort or a non-decision. */
  lemma AppendKeepsCauses(log: seq<Payload>, n: nat, e: Payload)
    requires Caused(log, n) && (IsDrain(e) || !e.IsDecision())
    ensures Caused(log + [e], n)
  {
    hide Output, HasCause;
    forall k | 0 <= k < n && Output(log + [e], k).Some?
      ensures Output(log + [e], k).value in log + [e]
    {
      OutputOfPrefix(log, [e], k);
    }
    forall q | 0 <= q < |log| && log[q].IsDecision() && !IsDrain(log[q])
      ensures HasCause(log + [e], n, log[q])
    {
      CausePersists(log, [e], n, n, log[q]);
    }
  }

  /** Consuming one more entry and logging what it produces. */
  lemma ConsumeKeepsCauses(log: seq<Payload>, n: nat)
    requires Caused(log, n) && n < |log|
    ensures Caused(Emit(log, Output(log, n)), n + 1)
  {
    hide Output, HasCause;
    var out := Output(log, n);
    var more := if out.Some? then [out.value] else [];
    var log' := log + more;
    assert log' == Emit(log, out);
    forall k | 0 <= k < n + 1 && Output(log', k).Some?
      ensures Output(log', k).value in log'
    {
      OutputOfPrefix(log, more, k);
    }
    forall q | 0 <= q < |log| && log[q].IsDecision() && !IsDrain(log[q])
      ensures HasCause(log', n + 1, log[q])
    {
      CausePersists(log, more, n, n + 1, log[q]);
    }
    if out.Some? {
      OutputOfPrefix(log, more, n);
      NewCause(log', n, out.value);
    }
  }

  lemma NewCause(log: seq<Payload>, n: nat, d: Payload)
    requires n < |log| && Output(log, n) == Some(d)
    ensures HasCause(log, n + 1, d)
  {
  }

  // ---- the loop of replay, on values ----

  /** Between calls. */
  ghost predicate Settled(log: seq<Payload>, st: ReplayState) {
    Synced(log, st) && DecisionInv(log, st) && Caused(log, st.next)
  }

  ghost predicate NoDecisionBefore(log: seq<Payload>, p: nat, position: nat) {
    position <= |log| && forall q :: 0 <= q < position ==> LoggedOutcome(log[q], p).None?
  }

  /** While replaying for p: `pending` runs ahead of the fold only between the drain abort and its replay. */
  ghost predicate Replaying(log: seq<Payload>, st: ReplayState, p: nat, position: nat, drained: bool) {
    && position <= st.next <= |log|
    && p < |log| && log[p].Intention?
    && NoDecisionBefore(log, p, position)
    && DecisionInv(log, st)
    && Caused(log, st.next)
    && (if drained then
          && position == st.next == |log| - 1
          && log[position] == Abort(p, DRAIN_REASON)
          && Synced(log, st.(next := |log|))
          && ProcessEntry(st, log[position], position) == Accepted(st, None)
        else Synced(log, st))
  }

  lemma NothingDecided(log: seq<Payload>, p: nat)
    requires NoDecisionBefore(log, p, |log|)
    ensures Undecided(log, p)
  {
    forall q | 0 <= q < |log| && log[q].IsDecision()
      ensures DecisionId(log[q]) != p
    {
      assert LoggedOutcome(log[q], p).None?;
    }
  }

  function Cleared(st: ReplayState, p: nat): ReplayState {
    if st.pending == Some(p) then st.(pending := None) else st
  }

  /** The drain: its abort is the first decision for p, and what it clears early its own replay clears. */
  lemma DrainStep(log: seq<Payload>, st: ReplayState, p: nat)
    requires Replaying(log, st, p, |log|, false)
    ensures Replaying(log + [Abort(p, DRAIN_REASON)], Cleared(st, p), p, |log|, true)
  {
    hide ProcessEntry, DecisionInv, Caused, Synced;
    NothingDecided(log, p);
    assert p < st.next;
    DrainKeepsDecisions(log, st, p);
    DrainedSyncs(log, st, p);
    AppendKeepsCauses(log, st.next, Abort(p, DRAIN_REASON));
    assert st.(pending := if st.pending == Some(p) then None else st.pending) == Cleared(st, p);
  }

  lemma DrainedOutput(log: seq<Payload>, st: ReplayState)
    requires st.next < |log| && log[st.next].IsDecision()
    ensures Output(log, st.next) == None
  {
  }

  lemma SyncedOutput(log: seq<Payload>, st: ReplayState)
    requires Synced(log, st) && st.next < |log| && ProcessEntry(st, log[st.next], st.next).Accepted?
    ensures Output(log, st.next) == ProcessEntry(st, log[st.next], st.next).output
  {
  }

  /** Consuming the entry at the cursor, drained or not. */
  lemma ConsumeStep(log: seq<Payload>, st: ReplayState, p: nat, drained: bool)
    requires st.next < |log| && Replaying(log, st, p, st.next, drained)
        && ProcessEntry(st, log[st.next], st.next).Accepted?
    ensures var r := ProcessEntry(st, log[st.next], st.next);
            var st' := r.state.(next := st.next + 1);
            && Settled(Emit(log, r.output), st')
            && (LoggedOutcome(log[st.next], p).None? ==> Replaying(Emit(log, r.output), st', p, st'.next, false))
  {
    hide ProcessEntry, DecisionInv, Caused, Synced;
    var r := ProcessEntry(st, log[st.next], st.next);
    ProcessOutcome(st, log[st.next], st.next);
    ConsumeKeepsDecisions(log, st);
    ConsumeKeepsCauses(log, st.next);
    if drained {
      DrainedOutput(log, st);
    } else {
      SyncedOutput(log, st);
      ConsumeKeepsSync(log, st);
    }
  }

  lemma DistinctDecisions(log: seq<Payload>, st: ReplayState, q: nat, r: nat)
    requires DecisionInv(log, st) && q < |log| && r < |log| && q != r && log[q].IsDecision() && log[r].IsDecision()
    ensures DecisionId(log[q]) != DecisionId(log[r])
  {
  }

  /** A logged decision for p is the only one. */
  lemma OneDecision(log: seq<Payload>, st: ReplayState, p: nat, q: nat)
    requires DecisionInv(log, st) && q < |log| && LoggedOutcome(log[q], p).Some?
    ensures DecidedOnce(log, p, LoggedOutcome(log[q], p).value)
  {
    forall r | 0 <= r < |log| && r != q
      ensures LoggedOutcome(log[r], p).None?
    {
      if LoggedOutcome(log[r], p).Some? {
        DistinctDecisions(log, st, q, r);
      }
    }
  }

  /** Exactly one Commit or Abort of the log names p, and it says `outcome`. */
  ghost predicate DecidedOnce(log: seq<Payload>, p: nat, outcome: Outcome) {
    exists q :: 0 <= q < |log| && LoggedOutcome(log[q], p) == Some(outcome) && forall r :: 0 <= r < |log| && r != q ==>
        LoggedOutcome(log[r], p).None?
  }

  /** Entries already consumed plus work to come: what every pass of the loop lowers. */
  function Remaining(log: seq<Payload>, st: ReplayState, position: nat): nat {
    if position <= st.next <= |log| then Work(log, st.next) + st.next - position else 0
  }

  ghost predicate OnlyDecisionsAdded(before: seq<Payload>, log: seq<Payload>) {
    && |before| <= |log|
    && log[..|before|] == before
    && forall k :: |before| <= k < |log| ==> log[k].IsDecision()
  }

  /** Decisions change neither the version reached nor whether batches are recognized. */
  lemma DecisionsKeepVersion(before: seq<Payload>, log: seq<Payload>, cached: Option<int>)
    requires OnlyDecisionsAdded(before, log) && VersionCached(before, cached)
    ensures VersionCached(log, cached)
  {
    assert log == before + log[|before|..];
    OtherEntriesKeepVersion(before, cached, log[|before|..]);
  }

  lemma DecisionsKeepBatches(before: seq<Payload>, log: seq<Payload>)
    requires OnlyDecisionsAdded(before, log) && BatchesRecognized(before)
    ensures BatchesRecognized(log)
  {
    assert forall k :: 0 <= k < |before| ==> log[k] == before[k];
  }

  lemma AppendKeepsSync(log: seq<Payload>, st: ReplayState, e: Payload)
    requires Synced(log, st)
    ensures Synced(log + [e], st)
  {
    FoldOfPrefix(log, [e], st.next);
  }

  /** Decisions name earlier positions, so none for p precedes p. */
  lemma StartReplaying(log: seq<Payload>, st: ReplayState, p: nat, position: nat)
    requires Settled(log, st) && p < |log| && log[p].Intention? && position <= p && position <= st.next
    ensures Replaying(log, st, p, position, false)
  {
    hide ProcessEntry, Caused, Synced;
    forall q | 0 <= q < position
      ensures LoggedOutcome(log[q], p).None?
    {
      if log[q].IsDecision() {
        assert DecisionId(log[q]) < q;
      }
    }
  }

  lemma NeverRejected(log: seq<Payload>, st: ReplayState)
    requires BatchesRecognized(log) && st.next < |log|
    ensures ProcessEntry(st, log[st.next], st.next).Accepted?
  {
  }

  // ---- what decides a submitted intention ----

  /** Some decision entry reports this outcome for p. */
  lemma DecisionEntry(log: seq<Payload>, p: nat, outcome: Outcome)
    requires DecidedOnce(log, p, outcome)
    ensures Decide(p, outcome.approved, outcome.reason) in log
    ensures forall d :: d in log && LoggedOutcome(d, p).Some? ==> d == Decide(p, outcome.approved, outcome.reason)
  {
  }

  /** The outcome of the intention at p: what the policy in force there gives at once, or, when it was held,
      what the first boolean vote said that came while it waited, or the drain. */
  ghost predicate FollowsPolicy(log: seq<Payload>, p: nat, outcome: Outcome) {
    && p < |log| && log[p].Intention? && outcome.position == p
    && match AtOnce(log, p)
       case Some(d) => d == DecisionOf(outcome)
       case None => outcome == Outcome(false, DRAIN_REASON, p) || exists k: nat :: VotedAt(log, p, k, outcome)
  }

  function DecisionOf(outcome: Outcome): Payload {
    if outcome.approved then Commit(outcome.position, outcome.reason) else Abort(outcome.position, outcome.reason)
  }

  /** The vote at k decided the waiting p this way. */
  ghost predicate VotedAt(log: seq<Payload>, p: nat, k: nat, outcome: Outcome) {
    && k < |log| && Waiting(log, k, p)
    && log[k].Vote? && log[k].voteFor == p && log[k].ballot == Some(outcome.approved)
    && outcome.reason == if log[k].voteReason == "" then "decided by policy" else log[k].voteReason
  }

  lemma LoggedOutcomeMeaning(e: Payload, p: nat, outcome: Outcome)
    ensures LoggedOutcome(e, p).Some? <==> e.Decides(p)
    ensures LoggedOutcome(e, p) == Some(outcome) <==> outcome.position == p && e == DecisionOf(outcome)
  {
  }

  /** Every decided intention is decided by the policy in force at its position. */
  lemma SubmittedOutcome(log: seq<Payload>, st: ReplayState, p: nat, outcome: Outcome)
    requires p < |log| && log[p].Intention? && Settled(log, st) && DecidedOnce(log, p, outcome)
    ensures FollowsPolicy(log, p, outcome)
  {
    hide DecisionInv, Synced, Fold, DecidedOnce, AtOnce, Waiting, ProcessEntry;
    DecisionEntry(log, p, outcome);
    DecidedIsConsumed(log, st, p, outcome);
    FoldDefined(log, p, st.next);
    DecisionAtIntention(log, p);
    ProcessOutcome(Fold(log, p).value, log[p], p);
    var d := Decide(p, outcome.approved, outcome.reason);
    if AtOnce(log, p).Some? {
      assert Output(log, p).value in log;
    } else if !IsDrain(d) {
      var k :| 0 <= k < st.next && Output(log, k) == Some(d);
      OutputIsVote(log, k, st.next, p, outcome);
    }
  }

  lemma OutputIsVote(log: seq<Payload>, k: nat, n: nat, p: nat, outcome: Outcome)
    requires k < n <= |log| && Fold(log, n).Some? && outcome.position == p
    requires p < |log| && log[p].Intention? && AtOnce(log, p).None?
    requires Output(log, k) == Some(DecisionOf(outcome))
    ensures VotedAt(log, p, k, outcome)
  {
    hide Fold, AtOnce, Waiting, ProcessEntry;
    FoldDefined(log, k, n);
    FoldDefined(log, k + 1, n);
    ProcessOutcome(Fold(log, k).value, log[k], k);
    if log[k].Intention? {
      DecisionAtIntention(log, k);
    } else {
      DecisionElsewhere(log, k);
    }
  }

  /** What becomes of an intention that no vote follows. */
  function Unvoted(log: seq<Payload>, p: nat): Payload
    requires p < |log| && log[p].Intention?
  {
    UnlessHeld(AtOnce(log, p), p)
  }

  /** With nothing but decisions after a held intention, only the drain can decide it. */
  lemma UnvotedOutcome(log: seq<Payload>, p: nat, outcome: Outcome)
    requires FollowsPolicy(log, p, outcome) && forall k :: p < k < |log| ==> log[k].IsDecision()
    ensures Unvoted(log, p) == DecisionOf(outcome)
  {
    hide AtOnce;
  }

  lemma DecidedIsConsumed(log: seq<Payload>, st: ReplayState, p: nat, outcome: Outcome)
    requires DecidedOnce(log, p, outcome) && DecisionInv(log, st) && Synced(log, st)
    ensures outcome.position == p && p < st.next <= |log| && Fold(log, st.next).Some?
  {
    hide Fold, Undecided;
    var q :| 0 <= q < |log| && LoggedOutcome(log[q], p) == Some(outcome);
    assert DecisionId(log[q]) == p;
  }

  lemma {:induction false} FoldDefined(log: seq<Payload>, n: nat, n': nat)
    requires n <= n' <= |log| && Fold(log, n').Some?
    ensures Fold(log, n).Some?
    decreases n'
  {
    if n < n' {
      FoldDefined(log, n, n' - 1);
    }
  }

  class InMemCommitService {
    var log: seq<Payload>
    var applied: Option<PolicyState>
    var replay: ReplayState

    /** The shared replay state is the fold of the log up to its cursor, and decisions are unique and caused. */
    ghost predicate Valid()
      reads this
    {
      Settled(log, replay)
    }

    function AppliedVersion(): Option<int>
      reads this
    {
      if applied.Some? then Some(applied.value.version) else None
    }

    /** The cached version is the one a replay of the whole log reaches. */
    ghost predicate PolicyValid()
      reads this
    {
      VersionCached(log, AppliedVersion()) && BatchesRecognized(log)
    }

    /** What `replay` for p leaves: p's one decision found, or an unreadable policy batch at the cursor. */
    ghost predicate Returned(p: nat, r: CommitResult<Outcome>)
      reads this
    {
      && Valid()
      && (r.Ok? ==> r.value.position == p && DecidedOnce(log, p, r.value))
      && (r.Internal? ==> replay.next < |log| && ProcessEntry(replay, log[replay.next], replay.next).Rejected?)
    }

    constructor ()
      ensures Valid() && PolicyValid() && log == [] && replay == Start
    {
      log, applied, replay := [], None, Start;
    }

    /** An append by anyone that is not a decision. */
    method Append(e: Payload) returns (position: nat)
      requires Valid() && !e.IsDecision()
      modifies this`log
      ensures Valid() && position == |old(log)| && log == old(log) + [e]
      ensures old(PolicyValid()) && !e.PolicyBatch? ==> PolicyValid()
    {
      hide ProcessEntry, DecisionInv, Caused, Fold, VersionCached;
      position := |log|;
      AppendKeepsDecisions(log, replay, e);
      AppendKeepsCauses(log, replay.next, e);
      AppendKeepsSync(log, replay, e);
      if PolicyValid() && !e.PolicyBatch? {
        OtherEntriesKeepVersion(log, AppliedVersion(), [e]);
      }
      log := log + [e];
    }

    method ReconcilePolicy(desired: PolicyState) returns (r: CommitResult<int>)
      requires Valid()
      modifies this`log, this`applied
      ensures Valid()
      ensures r == if desired.Usable() then Ok(desired.version) else Internal
      ensures old(PolicyValid()) ==> PolicyValid()
      ensures r.Ok? ==> applied.Some? && applied.value.version >= desired.version
      ensures var apply := desired.Usable() && (old(applied).None? || desired.version > old(applied).value.version);
              && log == (if apply then
                  old(log) + [PolicyBatch(old(AppliedVersion()), desired.version, desired.deciderPolicy)] else old(log))
              && applied == if apply then Some(desired) else old(applied)
    {
      hide ProcessEntry, DecisionInv, Caused, Fold, VersionAfter;
      if !desired.Usable() {
        return Internal;
      }
      var expected := AppliedVersion();
      if expected.None? || desired.version > expected.value {
        ghost var known := VersionCached(log, expected);
        if known {
          ReconcileKeepsVersion(log, expected, desired.version, desired.deciderPolicy);
        }
        var _ := Append(PolicyBatch(expected, desired.version, desired.deciderPolicy));
        applied := Some(desired);
      }
      return Ok(desired.version);
    }

    method CreateBus(initial: PolicyState) returns (r: CommitResult<()>)
      requires Valid()
      modifies this`log, this`applied
      ensures Valid()
      ensures r == if initial.Usable() then Ok(()) else Internal
      ensures r.Internal? ==> log == old(log) && applied == old(applied)
      ensures r.Ok? ==> log == old(log) + [PolicyBatch(None, initial.version, initial.deciderPolicy)]
      ensures r.Ok? ==> AppliedVersion() == CreatedCache(old(log), old(AppliedVersion()), initial.version)
      ensures old(PolicyValid()) && r.Ok? ==> (PolicyValid() <==> old(log) == [] || old(applied).Some?)
    {
      hide ProcessEntry, DecisionInv, Caused, Fold, VersionAfter;
      if !initial.Usable() {
        return Internal;
      }
      ghost var known := VersionCached(log, AppliedVersion());
      if known {
        CreateBusKeepsVersionIff(log, AppliedVersion(), initial.version, initial.deciderPolicy);
      }
      var position := Append(PolicyBatch(None, initial.version, initial.deciderPolicy));
      if position == 0 && applied.None? {
        applied := Some(initial);
      }
      return Ok(());
    }

    /** One entry of a batch: processed when the cursor has not passed it, then checked for p's decision. */
    method Visit(p: nat, entry: Payload, position: nat, ghost drained: bool)
      returns (found: Option<CommitResult<Outcome>>)
      requires position < |log| && log[position] == entry && Replaying(log, replay, p, position, drained)
      modifies this`log, this`replay
      ensures OnlyDecisionsAdded(old(log), log)
      ensures found.None? ==> Replaying(log, replay, p, position + 1, false) && position + 1 <= replay.next
      ensures found.None? ==> Remaining(log, replay, position + 1) < Remaining(old(log), old(replay), position)
      ensures found.Some? ==> Returned(p, found.value)
      ensures drained ==> found.Some?
    {
      hide ProcessEntry, DecisionInv, Caused, Synced, Work, DecidedOnce;
      if position >= replay.next {
        var next := ProcessEntry(replay, entry, position);
        if next.Rejected? {
          return Some(Internal);
        }
        ProcessOutcome(replay, entry, position);
        ConsumeStep(log, replay, p, drained);
        ConsumeLeavesLessWork(log, replay);
        log := Emit(log, next.output);
        replay := next.state.(next := position + 1);
      }
      var outcome := LoggedOutcome(entry, p);
      if outcome.Some? {
        OneDecision(log, replay, p, position);
        return Some(Ok(outcome.value));
      }
      return None;
    }

    /** One `read_next`: up to 64 entries before the tail last seen. */
    method VisitBatch(p: nat, first: nat, tail: nat, ghost drained: bool)
      returns (position: nat, found: Option<CommitResult<Outcome>>)
      requires first < tail <= |log| && Replaying(log, replay, p, first, drained)
      modifies this`log, this`replay
      ensures OnlyDecisionsAdded(old(log), log)
      ensures found.None? ==> first < position <= tail && Replaying(log, replay, p, position, false)
      ensures found.None? ==> Remaining(log, replay, position) < Remaining(old(log), old(replay), first)
      ensures found.Some? ==> Returned(p, found.value)
      ensures drained ==> found.Some?
    {
      hide ProcessEntry, DecisionInv, Caused, Synced, Work, DecidedOnce, Remaining, Replaying;
      position := first;
      var limit := if tail - first < READ_LIMIT then tail else first + READ_LIMIT;
      var batch := log[first..limit];
      while position < limit
        invariant first <= position <= limit <= |log|
        invariant Replaying(log, replay, p, position, drained)
        invariant OnlyDecisionsAdded(old(log), log)
        invariant position == first ==> log == old(log) && replay == old(replay)
        invariant position > first ==>
            Remaining(log, replay, position) < Remaining(old(log), old(replay), first) && !drained
      {
        assert batch[position - first] == old(log)[position] == log[position];
        found := Visit(p, batch[position - first], position, drained);
        if found.Some? {
          return;
        }
        position := position + 1;
      }
      found := None;
    }

    method Replay(p: nat) returns (r: CommitResult<Outcome>)
      requires Valid() && p < |log| && log[p].Intention?
      modifies this`log, this`replay
      ensures OnlyDecisionsAdded(old(log), log) && Returned(p, r)
      ensures BatchesRecognized(old(log)) ==> r.Ok?
      ensures old(PolicyValid()) ==> PolicyValid()
    {
      hide ProcessEntry, DecisionInv, Caused, Synced, Work, DecidedOnce, Remaining, VersionCached, BatchesRecognized;
      var position: nat := if replay.next < p then replay.next else p;
      ghost var drained := false;
      StartReplaying(log, replay, p, position);
      var found: Option<CommitResult<Outcome>> := None;
      while found.None?
        invariant found.None? ==> Replaying(log, replay, p, position, drained)
        invariant OnlyDecisionsAdded(old(log), log)
        invariant found.Some? ==> Returned(p, found.value)
        decreases if found.Some? then 0 else if drained then 1 else 2, Remaining(log, replay, position)
      {
        var tail := |log|;
        if position >= tail {
          DrainStep(log, replay, p);
          log := log + [Abort(p, DRAIN_REASON)];
          replay := Cleared(replay, p);
          drained := true;
        } else {
          found, position := VisitToTail(p, position, tail, drained);
        }
      }
      r := found.value;
      if old(PolicyValid()) {
        DecisionsKeepVersion(old(log), log, AppliedVersion());
      }
      if BatchesRecognized(old(log)) {
        DecisionsKeepBatches(old(log), log);
        if r.Internal? {
          NeverRejected(log, replay);
        }
      }
    }

    /** The inner loop: batches up to the tail last seen. */
    method VisitToTail(p: nat, first: nat, tail: nat, ghost drained: bool)
      returns (found: Option<CommitResult<Outcome>>, position: nat)
      requires first < tail <= |log| && Replaying(log, replay, p, first, drained)
      modifies this`log, this`replay
      ensures OnlyDecisionsAdded(old(log), log)
      ensures found.None? ==> position == tail && Replaying(log, replay, p, position, false)
      ensures found.None? ==> Remaining(log, replay, position) < Remaining(old(log), old(replay), first)
      ensures found.Some? ==> Returned(p, found.value)
      ensures drained ==> found.Some?
    {
      hide ProcessEntry, DecisionInv, Caused, Synced, Work, DecidedOnce, Remaining, Replaying;
      found, position := None, first;
      while position < tail
        invariant first <= position <= tail <= |log| && found.None?
        invariant Replaying(log, replay, p, position, drained)
        invariant OnlyDecisionsAdded(old(log), log)
        invariant position == first ==> log == old(log) && replay == old(replay)
        invariant position > first ==>
            Remaining(log, replay, position) < Remaining(old(log), old(replay), first) && !drained
        decreases tail - position
      {
        position, found := VisitBatch(p, position, tail, drained);
        if found.Some? {
          return;
        }
      }
    }

    /** The whole effect of a call: the reconcile's batch if any, the intention, then decisions. The outcome is
        what the policy in force prescribes, no vote having come in between; it is an abort for the version
        constraint exactly when the cached version was wrong and the version in force too low. */
    method CommitIntention(desired: PolicyState, body: Body) returns (r: CommitResult<Outcome>)
      requires Valid()
      modifies this
      ensures Valid()
      ensures old(PolicyValid()) ==> PolicyValid()
      ensures !desired.Usable() ==> r.Internal? && log == old(log) && applied == old(applied) && replay == old(replay)
      ensures BatchesRecognized(old(log)) ==> (r.Ok? <==> desired.Usable())
      ensures desired.Usable() ==>
                OnlyDecisionsAdded(Submitted(old(log), old(AppliedVersion()), desired, body), log)
      ensures r.Ok? ==>
                var p := |Submitted(old(log), old(AppliedVersion()), desired, body)| - 1;
                && DecidedOnce(log, p, r.value)
                && r.value.position == p
                && DecisionOf(r.value) == Expected(old(log), old(AppliedVersion()), desired, p)
      ensures r.Ok? ==>
                var inForce := VersionAfter(old(log), |old(log)|);
                (r.value == Outcome(false, CONSTRAINT_REASON, r.value.position)) <==>
                !(old(AppliedVersion()) == inForce || (inForce.Some? && inForce.value >= desired.version))
      ensures r.Ok? && old(AppliedVersion()) == VersionAfter(old(log), |old(log)|)
              && (old(applied).None? || desired.version > old(applied).value.version) ==>
                (r.value.approved <==> desired.deciderPolicy == Some(1))
    {
      hide ProcessEntry, DecisionInv, Caused, Synced, Work, DecidedOnce, Fold, VersionAfter, BatchesRecognized,
          FollowsPolicy, Expected;
      ghost var cached := AppliedVersion();
      var version := ReconcilePolicy(desired);
      if version.Internal? {
        return Internal;
      }
      assert log == Reconciled(old(log), cached, desired.version, desired.deciderPolicy);
      RecognizedAfter(old(log), cached, desired, body);
      var position := Append(Intention(body, Minimum(version.value)));
      ghost var submitted := log;
      assert submitted == Submitted(old(log), cached, desired, body);
      r := Replay(position);
      if r.Ok? {
        assert log[position] == submitted[position];
        SubmittedOutcome(log, replay, position, r.value);
        ExpectedOutcome(old(log), cached, desired, body, log, r.value);
        ExpectedOnConstraint(old(log), cached, desired, r.value);
        if cached == VersionAfter(old(log), |old(log)|) && (cached.None? || desired.version > cached.value) {
          ExpectedWhenAdopted(old(log), cached, desired, r.value);
        }
      }
    }
  }

  /** The decision of a submission with the provider at `desired`, from the log before the call and the cached
      version: an abort for the version constraint unless the cache was right or the version in force high
      enough; else by the kind in force, which is the provider's own when its batch is adopted; a held
      intention, no vote having come in between, is drained. */
  function Expected(log: seq<Payload>, cached: Option<int>, desired: PolicyState, p: nat): Payload {
    var inForce := VersionAfter(log, |log|);
    var adopted := cached == inForce && (cached.None? || desired.version > cached.value);
    var met := cached == inForce || (inForce.Some? && inForce.value >= desired.version);
    var kind := if adopted && desired.deciderPolicy.Some? then desired.deciderPolicy.value else KindAfter(log, |log|);
    UnlessHeld(ByKind(met, kind, p), p)
  }

  /** A held intention that no vote follows is drained. */
  function UnlessHeld(d: Option<Payload>, p: nat): Payload {
    match d
    case Some(d) => d
    case None => Abort(p, DRAIN_REASON)
  }

  lemma OnConstraint(met: bool, kind: int, p: nat)
    ensures UnlessHeld(ByKind(met, kind, p), p) == Abort(p, CONSTRAINT_REASON) <==> !met
  {
  }

  /** Under the policy the call itself brings in, approved means that policy is on-by-default, 1 on the wire. */
  lemma ExpectedWhenAdopted(log: seq<Payload>, cached: Option<int>, desired: PolicyState, outcome: Outcome)
    requires DecisionOf(outcome) == Expected(log, cached, desired, outcome.position) && desired.Usable()
    requires cached == VersionAfter(log, |log|) && (cached.None? || desired.version > cached.value)
    ensures outcome.approved <==> desired.deciderPolicy == Some(1)
  {
    hide VersionAfter, KindAfter, ByKind, UnlessHeld, DecisionOf;
    ApprovedIff(desired.deciderPolicy.value, outcome);
  }

  lemma ApprovedIff(kind: int, outcome: Outcome)
    requires DecisionOf(outcome) == UnlessHeld(ByKind(true, kind, outcome.position), outcome.position)
    ensures outcome.approved <==> kind == ON_BY_DEFAULT
  {
  }

  lemma ExpectedOnConstraint(log: seq<Payload>, cached: Option<int>, desired: PolicyState, outcome: Outcome)
    requires DecisionOf(outcome) == Expected(log, cached, desired, outcome.position)
    ensures var inForce := VersionAfter(log, |log|);
            (outcome == Outcome(false, CONSTRAINT_REASON, outcome.position)) <==>
            !(cached == inForce || (inForce.Some? && inForce.value >= desired.version))
  {
    hide VersionAfter, KindAfter, ByKind, UnlessHeld;
    var inForce := VersionAfter(log, |log|);
    var adopted := cached == inForce && (cached.None? || desired.version > cached.value);
    var met := cached == inForce || (inForce.Some? && inForce.value >= desired.version);
    OnConstraint(met, if adopted
        && desired.deciderPolicy.Some? then desired.deciderPolicy.value else KindAfter(log, |log|),
      outcome.position);
  }

  function Submitted(log: seq<Payload>, cached: Option<int>, desired: PolicyState, body: Body): seq<Payload> {
    Reconciled(log, cached, desired.version, desired.deciderPolicy) + [Intention(body, Minimum(desired.version))]
  }

  lemma RecognizedAfter(log: seq<Payload>, cached: Option<int>, desired: PolicyState, body: Body)
    requires desired.Usable()
    ensures BatchesRecognized(log) ==> BatchesRecognized(Submitted(log, cached, desired, body))
  {
  }

  lemma ExpectedOutcome(before: seq<Payload>, cached: Option<int>, desired: PolicyState, body: Body, log: seq<Payload>,
      outcome: Outcome)
    requires OnlyDecisionsAdded(Submitted(before, cached, desired, body), log)
    requires FollowsPolicy(log, |Submitted(before, cached, desired, body)| - 1, outcome)
    ensures DecisionOf(outcome) == Expected(before, cached, desired, |Submitted(before, cached, desired, body)| - 1)
  {
    hide AtOnce, FollowsPolicy, Expected, Reconciled;
    var submitted := Submitted(before, cached, desired, body);
    var p := |submitted| - 1;
    assert log[p] == submitted[p];
    UnvotedOutcome(log, p, outcome);
    assert log == submitted + log[p + 1..];
    AdoptsOfPrefix(submitted, log[p + 1..], p);
    UnvotedIsExpected(before, cached, desired, body);
  }

  lemma UnvotedIsExpected(before: seq<Payload>, cached: Option<int>, desired: PolicyState, body: Body)
    ensures var submitted := Submitted(before, cached, desired, body);
            Unvoted(submitted, |submitted| - 1) == Expected(before, cached, desired, |submitted| - 1)
  {
    hide VersionAfter, KindAfter, Reconciled, ByKind;
    var reconciled := Reconciled(before, cached, desired.version, desired.deciderPolicy);
    var more := [Intention(body, Minimum(desired.version))];
    VersionOfPrefix(reconciled, more, |reconciled|);
    KindOfPrefix(reconciled, more, |reconciled|);
    ConstraintMetIff(before, cached, desired.version, desired.deciderPolicy);
    ReconciledKind(before, cached, desired.version, desired.deciderPolicy);
  }

  /** Creating a bus that others already wrote to, then submitting: the intention is aborted for its version
      constraint exactly when the provider has moved past the version the bus was created with. */
  method CreateThenCommit(service: InMemCommitService, initial: PolicyState, desired: PolicyState, body: Body)
    returns (r: CommitResult<Outcome>)
    requires service.Valid() && service.log != [] && service.applied.None? && service.PolicyValid()
    modifies service
    ensures service.Valid()
    ensures r.Ok? <==> initial.Usable() && desired.Usable()
    ensures r.Ok? ==>
              (r.value == Outcome(false, CONSTRAINT_REASON, r.value.position) <==> desired.version > initial.version)
  {
    hide ProcessEntry, DecisionInv, Caused, Synced, DecidedOnce, Fold, OnlyDecisionsAdded, Expected;
    ghost var log := service.log;
    var created := service.CreateBus(initial);
    if created.Internal? {
      return Internal;
    }
    VersionOfPrefix(log, [PolicyBatch(None, initial.version, initial.deciderPolicy)], |log|);
    r := service.CommitIntention(desired, body);
  }
}

/** What the counter's specification accepts and what a client's replay computes, by counting increments and
    decrements. */
module CounterCounting {
  import opened Bus
  import opened History
  import opened Linearizability
  import opened Counter

  // ---- the specification ----

  /** Positions below n in the order whose operation is `op` and was granted, that is, reported a value. */
  ghost function Granted(m: map<OperationId, CounterObservation>, ids: seq<OperationId>, n: nat, op: CounterOperation)
    : set<nat>
  {
    set i: nat | i < n && IsGranted(m, ids, i, op)
  }

  ghost predicate IsGranted(m: map<OperationId, CounterObservation>, ids: seq<OperationId>, i: nat,
      op: CounterOperation) {
    i < |ids| && ids[i] in m && m[ids[i]].operation == op && m[ids[i]].output.Value?
  }

  /** Granted increments minus granted decrements among the first n operations of the order. */
  ghost function Net(m: map<OperationId, CounterObservation>, ids: seq<OperationId>, n: nat): int {
    |Granted(m, ids, n, Increment)| - |Granted(m, ids, n, Decrement)|
  }

  /** The k-th output is a denied write, or the count of granted increments minus decrements up to and
      including it. */
  ghost predicate CountsAt(m: map<OperationId, CounterObservation>, ids: seq<OperationId>, k: nat)
    requires Known(m, ids) && k < |ids|
  {
    match m[ids[k]].output
    case Denied => m[ids[k]].operation == Increment || m[ids[k]].operation == Decrement
    case Value(x) => x == Net(m, ids, k + 1)
  }

  lemma GrantedGrows(m: map<OperationId, CounterObservation>, ids: seq<OperationId>, k: nat, op: CounterOperation)
    requires Known(m, ids) && k < |ids|
    ensures |Granted(m, ids, k + 1, op)| ==
            |Granted(m, ids, k, op)| + (if IsGranted(m, ids, k, op) then 1 else 0)
  {
    hide IsGranted;
    var before, after := Granted(m, ids, k, op), Granted(m, ids, k + 1, op);
    if IsGranted(m, ids, k, op) {
      assert after == before + {k};
    } else {
      assert after == before;
    }
  }

  /** One step of the specification checks the k-th output against the count, and moves to the next count. */
  lemma StepCounts(m: map<OperationId, CounterObservation>, ids: seq<OperationId>, k: nat)
    requires Known(m, ids) && k < |ids|
    ensures var o := m[ids[k]];
            VerifyAndApply(Net(m, ids, k), o.operation, o.output) ==
            if CountsAt(m, ids, k) then Some(Net(m, ids, k + 1)) else None
  {
    hide Granted;
    GrantedGrows(m, ids, k, Increment);
    GrantedGrows(m, ids, k, Decrement);
  }

  lemma {:induction false} ReplayCountsFrom(m: map<OperationId, CounterObservation>, ids: seq<OperationId>, k: nat)
    requires Known(m, ids) && k <= |ids|
    ensures Known(m, ids[k..])
    ensures Replay(m, ids[k..], Net(m, ids, k), VerifyAndApply).Some? <==>
            forall j :: k <= j < |ids| ==> CountsAt(m, ids, j)
    decreases |ids| - k
  {
    hide Net, CountsAt, VerifyAndApply;
    if k < |ids| {
      StepCounts(m, ids, k);
      ReplayCountsFrom(m, ids, k + 1);
      assert ids[k..][0] == ids[k] && ids[k..][1..] == ids[k + 1..];
    }
  }

  /** A replay from zero is accepted exactly when every output is right by counting. */
  lemma ReplayCounts(m: map<OperationId, CounterObservation>, ids: seq<OperationId>)
    requires Known(m, ids)
    ensures Replay(m, ids, 0, VerifyAndApply).Some? <==> forall k :: 0 <= k < |ids| ==> CountsAt(m, ids, k)
  {
    hide CountsAt, VerifyAndApply, Replay;
    assert Granted(m, ids, 0, Increment) == {} && Granted(m, ids, 0, Decrement) == {};
    ReplayCountsFrom(m, ids, 0);
    assert ids[0..] == ids;
  }

  // ---- a client's replay ----

  /** Commits in log[..n] of earlier counter commands for `op`. */
  ghost function Committed(log: seq<Payload>, n: nat, op: CounterOperation): set<nat> {
    set q: nat | q < n && IsCommitFor(log, q, op)
  }

  ghost predicate IsCommitFor(log: seq<Payload>, q: nat, op: CounterOperation) {
    && q < |log| && log[q].Commit? && 0 <= log[q].committed < q
    && var command := log[log[q].committed];
       command.Intention? && command.body.CounterBody? && command.body.operation == op
  }

  lemma EffectIsCommit(log: seq<Payload>, q: nat, op: CounterOperation)
    requires q < |log| && op != Read
    ensures EffectOf(log, q) == op <==> IsCommitFor(log, q, op)
  {
  }

  lemma CommittedGrows(log: seq<Payload>, n: nat, op: CounterOperation)
    requires n < |log| && op != Read
    ensures |Committed(log, n + 1, op)| == |Committed(log, n, op)| + (if EffectOf(log, n) == op then 1 else 0)
  {
    hide IsCommitFor, EffectOf;
    EffectIsCommit(log, n, op);
    var before, after := Committed(log, n, op), Committed(log, n + 1, op);
    if IsCommitFor(log, n, op) {
      assert after == before + {n};
    } else {
      assert after == before;
    }
  }

  /** A client that has read log[..n] holds the committed increments minus the committed decrements. */
  lemma {:induction false} ValueCounts(log: seq<Payload>, n: nat)
    requires GoodLog(log) && n <= |log|
    ensures Replayed(log, n).value == |Committed(log, n, Increment)| - |Committed(log, n, Decrement)|
  {
    hide GoodLog, ProcessEntry, Committed;
    if n > 0 {
      ValueCounts(log, n - 1);
      ValueStep(log, n - 1);
      CommittedGrows(log, n - 1, Increment);
      CommittedGrows(log, n - 1, Decrement);
    } else {
      NothingCommitted(log, Increment);
      NothingCommitted(log, Decrement);
    }
  }

  lemma NothingCommitted(log: seq<Payload>, op: CounterOperation)
    ensures Committed(log, 0, op) == {}
  {
  }
}

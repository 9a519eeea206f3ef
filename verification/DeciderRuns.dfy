/** Any number of deciders over one log, each replaying from position 0, with other writers
    interleaved. A crash is an instance that takes no further step; a restart is a new instance. */
module DeciderRuns {
  import opened Bus
  import opened Decider

  /** A log entry, the decider instance that appended it, and the position of the entry whose
      processing produced it. The last two only record what happened. */
  datatype Entry = Entry(payload: Payload, author: Option<nat>, cause: nat)

  /** A decider between two awaits: `outbox` holds a decision made and not yet appended. */
  datatype Instance = Instance(cursor: nat, memory: Core, outbox: Option<Payload>)

  datatype State = State(log: seq<Entry>, instances: map<nat, Instance>)

  datatype Step = External(payload: Payload) | Spawn(id: nat) | Consume(id: nat) | Publish(id: nat)

  function Payloads(log: seq<Entry>): (ps: seq<Payload>)
    ensures |ps| == |log| && forall k :: 0 <= k < |log| ==> ps[k] == log[k].payload
  {
    seq(|log|, k requires 0 <= k < |log| => log[k].payload)
  }

  predicate Enabled(s: State, step: Step) {
    match step
    case External(_) => true
    case Spawn(id) => id !in s.instances
    case Consume(id) => id in s.instances && s.instances[id].outbox.None? && s.instances[id].cursor < |s.log|
    case Publish(id) => id in s.instances && s.instances[id].outbox.Some?
  }

  function Apply(s: State, step: Step): State
    requires Enabled(s, step)
  {
    match step
    case External(p) => s.(log := s.log + [Entry(p, None, 0)])
    case Spawn(id) => s.(instances := s.instances[id := Instance(0, Fresh, None)])
    case Consume(id) =>
      var i := s.instances[id];
      var (memory, out) := Process(i.memory, i.cursor, s.log[i.cursor].payload);
      s.(instances := s.instances[id := Instance(i.cursor + 1, memory, out)])
    case Publish(id) =>
      var i := s.instances[id];
      State(s.log + [Entry(i.outbox.value, Some(id), if i.cursor > 0 then i.cursor - 1 else 0)],
          s.instances[id := i.(outbox := None)])
  }

  ghost predicate IsRun(states: seq<State>, steps: seq<Step>) {
    && |states| == |steps| + 1
    && states[0] == State([], map[])
    && forall i {:trigger steps[i]} :: 0 <= i < |steps| ==>
        Enabled(states[i], steps[i]) && states[i + 1] == Apply(states[i], steps[i])
  }

  // ---- invariant ----

  ghost predicate InstanceInv(log: seq<Payload>, i: Instance) {
    && i.cursor <= |log|
    && i.memory == Fold(log, i.cursor)
    && (i.outbox.Some? ==> 0 < i.cursor && Output(log, i.cursor - 1) == i.outbox)
  }

  /** Positions an instance has consumed and, if they decided something, published. */
  predicate Settled(i: Instance, n: nat) {
    n < i.cursor && (i.outbox.Some? ==> n != i.cursor - 1)
  }

  ghost predicate EntryInv(s: State, q: nat)
    requires q < |s.log|
  {
    s.log[q].author.Some? ==>
      && s.log[q].author.value in s.instances
      && Settled(s.instances[s.log[q].author.value], s.log[q].cause)
      && s.log[q].cause < q
      && Output(Payloads(s.log), s.log[q].cause) == Some(s.log[q].payload)
  }

  ghost predicate OneEntryPerCause(log: seq<Entry>) {
    forall q, r :: 0 <= q < r < |log| && log[q].author.Some? && log[q].author == log[r].author ==>
        log[q].cause != log[r].cause
  }

  ghost predicate Published(log: seq<Entry>, id: nat, n: nat) {
    exists q :: 0 <= q < |log| && log[q].author == Some(id) && log[q].cause == n
  }

  ghost predicate PublishedInv(s: State, id: nat)
    requires id in s.instances
  {
    forall n: nat :: Settled(s.instances[id], n) && n < |s.log| && Output(Payloads(s.log), n).Some? ==>
        Published(s.log, id, n)
  }

  ghost predicate Inv(s: State) {
    && (forall id :: id in s.instances ==> InstanceInv(Payloads(s.log), s.instances[id]) && PublishedInv(s, id))
    && (forall q :: 0 <= q < |s.log| ==> EntryInv(s, q))
    && OneEntryPerCause(s.log)
  }

  lemma AppendKeepsOutputs(log: seq<Entry>, e: Entry)
    ensures Payloads(log + [e]) == Payloads(log) + [e.payload]
    ensures forall n :: 0 <= n <= |log| ==> Fold(Payloads(log + [e]), n) == Fold(Payloads(log), n)
    ensures forall n :: 0 <= n < |log| ==> Output(Payloads(log + [e]), n) == Output(Payloads(log), n)
  {
    assert Payloads(log + [e]) == Payloads(log) + [e.payload];
    forall n | 0 <= n <= |log| ensures Fold(Payloads(log + [e]), n) == Fold(Payloads(log), n) {
      FoldOfPrefix(Payloads(log), [e.payload], n);
    }
  }

  lemma ExternalKeepsInv(s: State, p: Payload)
    requires Inv(s)
    ensures Inv(Apply(s, External(p)))
  {
    hide Fold, Process, Output, PublishedInv;
    var s' := Apply(s, External(p));
    AppendKeepsOutputs(s.log, Entry(p, None, 0));
    forall id | id in s'.instances ensures PublishedInv(s', id) {
      AppendKeepsPublished(s, s', id);
    }
    forall q | 0 <= q < |s'.log| ensures EntryInv(s', q) {
      assert q < |s.log| ==> EntryInv(s, q);
    }
  }

  lemma AppendKeepsPublished(s: State, s': State, id: nat)
    requires Inv(s) && id in s.instances && s.instances[id].cursor <= |s.log|
    requires |s.log| < |s'.log| && s'.log[..|s.log|] == s.log
    requires id in s'.instances && s'.instances[id] == s.instances[id]
    requires forall n :: 0 <= n < |s.log| ==> Output(Payloads(s'.log), n) == Output(Payloads(s.log), n)
    ensures PublishedInv(s', id)
  {
    hide Fold, Process, Output;
    assert PublishedInv(s, id);
    forall n: nat | Settled(s'.instances[id], n) && n < |s'.log| && Output(Payloads(s'.log), n).Some?
      ensures Published(s'.log, id, n) {
      assert Published(s.log, id, n);
      var q :| 0 <= q < |s.log| && s.log[q].author == Some(id) && s.log[q].cause == n;
      assert s'.log[q] == s.log[q];
    }
  }

  lemma PublishKeepsInv(s: State, id: nat)
    requires Inv(s) && Enabled(s, Publish(id))
    ensures Inv(Apply(s, Publish(id)))
  {
    hide Fold, Process, Output, PublishedInv;
    var s' := Apply(s, Publish(id));
    var e := s'.log[|s.log|];
    AppendKeepsOutputs(s.log, e);
    assert InstanceInv(Payloads(s.log), s.instances[id]) && PublishedInv(s, id);
    forall q | 0 <= q < |s.log| ensures EntryInv(s', q) && (s.log[q].author == Some(id) ==> s.log[q].cause != e.cause) {
      assert EntryInv(s, q);
    }
    forall o | o in s'.instances ensures PublishedInv(s', o) {
      if o != id {
        AppendKeepsPublished(s, s', o);
      } else {
        PublishPublishes(s, id);
      }
    }
  }

  lemma PublishPublishes(s: State, id: nat)
    requires Inv(s) && Enabled(s, Publish(id))
    requires var s' := Apply(s, Publish(id)); forall n :: 0 <= n < |s.log| ==>
        Output(Payloads(s'.log), n) == Output(Payloads(s.log), n)
    ensures PublishedInv(Apply(s, Publish(id)), id)
  {
    hide Fold, Process, Output;
    var s' := Apply(s, Publish(id));
    var last := s.instances[id].cursor - 1;
    assert InstanceInv(Payloads(s.log), s.instances[id]) && PublishedInv(s, id);
    forall n: nat | Settled(s'.instances[id], n) && n < |s'.log| && Output(Payloads(s'.log), n).Some?
      ensures Published(s'.log, id, n) {
      if n == last {
        assert s'.log[|s.log|].author == Some(id) && s'.log[|s.log|].cause == n;
      } else {
        assert Published(s.log, id, n);
        var q :| 0 <= q < |s.log| && s.log[q].author == Some(id) && s.log[q].cause == n;
        assert s'.log[q] == s.log[q];
      }
    }
  }

  lemma ConsumeKeepsInv(s: State, id: nat)
    requires Inv(s) && Enabled(s, Consume(id))
    ensures Inv(Apply(s, Consume(id)))
  {
    var s' := Apply(s, Consume(id));
    var n := s.instances[id].cursor;
    assert InstanceInv(Payloads(s.log), s.instances[id]) && PublishedInv(s, id);
    ConsumedInstance(Payloads(s.log), s.instances[id]);
    hide Process;
    forall q | 0 <= q < |s'.log| ensures EntryInv(s', q) {
      assert EntryInv(s, q);
    }
    forall o | o in s'.instances ensures PublishedInv(s', o) {
      if o != id {
        assert PublishedInv(s, o);
      }
    }
  }

  lemma ConsumedInstance(log: seq<Payload>, i: Instance)
    requires InstanceInv(log, i) && i.outbox.None? && i.cursor < |log|
    ensures var (memory, out) := Process(i.memory, i.cursor, log[i.cursor]);
            InstanceInv(log, Instance(i.cursor + 1, memory, out)) && out == Output(log, i.cursor)
  {
  }

  lemma StepKeepsInv(s: State, step: Step)
    requires Inv(s) && Enabled(s, step)
    ensures Inv(Apply(s, step))
  {
    match step {
      case External(p) => ExternalKeepsInv(s, p);
      case Spawn(id) =>
        var s' := Apply(s, step);
        forall q | 0 <= q < |s'.log| ensures EntryInv(s', q) {
          assert EntryInv(s, q);
        }
        forall o | o in s'.instances ensures PublishedInv(s', o) {
          if o != id {
            assert PublishedInv(s, o);
          }
        }
      case Consume(id) => ConsumeKeepsInv(s, id);
      case Publish(id) => PublishKeepsInv(s, id);
    }
  }

  lemma {:induction false} RunKeepsInv(states: seq<State>, steps: seq<Step>, i: nat)
    requires IsRun(states, steps) && i < |states|
    ensures Inv(states[i])
  {
    if i > 0 {
      RunKeepsInv(states, steps, i - 1);
      StepKeepsInv(states[i - 1], steps[i - 1]);
    }
  }

  // ---- theorems ----

  /** Only one entry of a log can make deciders decide a given intention. */
  lemma OneCausePerIntention(log: seq<Payload>, n: nat, m: nat, p: nat)
    requires n < |log| && m < |log| && Output(log, n).Some? && Output(log, m).Some?
    requires Output(log, n).value.Decides(p) && Output(log, m).value.Decides(p)
    ensures n == m
  {
    hide Output, Decision;
    CauseOf(log, n, p);
    CauseOf(log, m, p);
    if n < m {
      DecisionIsStable(log, p, n + 1, m);
    } else if m < n {
      DecisionIsStable(log, p, m + 1, n);
    }
  }

  /** The entry that decides p is the first after which the log decides p. */
  lemma CauseOf(log: seq<Payload>, n: nat, p: nat)
    requires n < |log| && Output(log, n).Some? && Output(log, n).value.Decides(p)
    ensures p <= n && Decision(log, p, n + 1).Some? && (p == n || Decision(log, p, n).None?)
  {
    hide Output, Decision;
    OutputMeaning(log, n);
  }

  lemma InvEntries(s: State, q: nat, r: nat)
    requires Inv(s) && q < |s.log| && r < |s.log|
    ensures EntryInv(s, q) && EntryInv(s, r)
    ensures s.log[q].author.Some? && s.log[q].author == s.log[r].author && s.log[q].cause == s.log[r].cause ==> q == r
  {
  }

  /** Every decision any decider appends for intention p carries the verdict and reason that the
      log's intentions, votes and policies determine for p; hence all agree. One instance appends
      at most one decision per intention. */
  lemma DecisionsAgree(states: seq<State>, steps: seq<Step>, i: nat, q: nat, r: nat, p: nat)
    requires IsRun(states, steps) && i < |states|
    requires var log := states[i].log;
             && q < |log| && r < |log| && log[q].author.Some? && log[r].author.Some?
             && log[q].payload.Decides(p) && log[r].payload.Decides(p)
    ensures var log := states[i].log;
            && p < |log| && log[p].payload.Intention?
            && Decision(Payloads(log), p, |log|).Some?
            && log[q].payload == log[r].payload == DecisionPayload(p, Decision(Payloads(log), p, |log|).value)
            && Ruled(Payloads(log), p, log[q].payload)
            && (log[q].author == log[r].author ==> q == r)
  {
    hide IsRun, Fold, Output, Process, Inv, Decision;
    RunKeepsInv(states, steps, i);
    InvEntries(states[i], q, r);
    var log := states[i].log;
    var ps := Payloads(log);
    OneCausePerIntention(ps, log[q].cause, log[r].cause, p);
    OutputMeaning(ps, log[q].cause);
    DecisionIsStable(ps, p, log[q].cause + 1, |log|);
    OutputIsRuled(ps, log[q].cause, p);
  }

  /** The decision d of the intention at p: by the default policy in force, or by the first boolean vote. */
  ghost predicate Ruled(log: seq<Payload>, p: nat, d: Payload) {
    p < |log| &&
    if PolicyAt(log, p) == ON_BY_DEFAULT then d == Commit(p, "ON_BY_DEFAULT policy")
    else if PolicyAt(log, p) == OFF_BY_DEFAULT then d == Abort(p, "OFF_BY_DEFAULT policy")
    else
      exists k :: p < k < |log| && IsFirstBallot(log, p, k)
        && (log[k].ballot == Some(true) ==> d == Commit(p, SpokenReason(log[k])))
        && (log[k].ballot == Some(false) ==> d == Abort(p, SpokenReason(log[k])))
  }

  lemma OutputIsRuled(log: seq<Payload>, n: nat, p: nat)
    requires n < |log| && p < |log| && Output(log, n).Some? && Output(log, n).value.Decides(p)
    ensures Ruled(log, p, Output(log, n).value)
  {
    hide Output, PolicyAt, SpokenReason;
    OutputOnPayloads(log, n);
  }

  /** An instance with nothing left to append has appended the decision of every intention
      decided by the part of the log it has consumed. */
  lemma DecisionsArePublished(states: seq<State>, steps: seq<Step>, i: nat, id: nat, p: nat)
    requires IsRun(states, steps) && i < |states| && id in states[i].instances
    requires var s := states[i];
             && s.instances[id].outbox.None? && p < s.instances[id].cursor <= |s.log| && s.log[p].payload.Intention?
             && Decision(Payloads(s.log), p, s.instances[id].cursor).Some?
    ensures exists q ::
        0 <= q < |states[i].log| && states[i].log[q].author == Some(id)
        && states[i].log[q].payload.Decides(p)
  {
    RunKeepsInv(states, steps, i);
    var s := states[i];
    var ps := Payloads(s.log);
    var n := FirstDecided(ps, p, s.instances[id].cursor);
    OutputMeaning(ps, n);
    assert PublishedInv(s, id);
    var q :| 0 <= q < |s.log| && s.log[q].author == Some(id) && s.log[q].cause == n;
    assert EntryInv(s, q);
  }

  lemma {:induction false} FirstDecided(log: seq<Payload>, p: nat, n: nat) returns (k: nat)
    requires p < n <= |log| && Decision(log, p, n).Some?
    ensures p <= k < n && Decision(log, p, k + 1).Some? && (k == p || Decision(log, p, k).None?)
  {
    k := n - 1;
    if p < n - 1 && Decision(log, p, n - 1).Some? {
      k := FirstDecided(log, p, n - 1);
    }
  }
}

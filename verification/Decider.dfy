/** The decider replays the log, keeps one vote tracker per intention and appends a Commit or
    Abort when a tracker decides. */
module Decider {
  import opened Bus

  datatype Verdict = Verdict(commit: bool, reason: string)

  const ON_REASON := "ON_BY_DEFAULT policy"
  const OFF_REASON := "OFF_BY_DEFAULT policy"
  const NO_REASON := "No reason provided"
  const MAX_ENTRIES := 64

  // ---- vote trackers ----

  datatype VoteRecord =
    | OnByDefaultTracker(decision: Option<bool>)
    | FirstVoterWinsTracker(decision: Option<bool>, reason: Option<string>)
    | OffByDefaultTracker(decision: Option<bool>)
  {
    function Register(): (VoteRecord, Option<Verdict>) {
      match this
      case OnByDefaultTracker(_) => (OnByDefaultTracker(Some(true)), Some(Verdict(true, ON_REASON)))
      case FirstVoterWinsTracker(_, _) => (this, None)
      case OffByDefaultTracker(_) => (OffByDefaultTracker(Some(false)), Some(Verdict(false, OFF_REASON)))
    }

    function ApplyVote(ballot: Option<bool>, voteReason: string): (VoteRecord, Option<Verdict>) {
      match this
      case OnByDefaultTracker(d) => (this, if d.Some? then Some(Verdict(d.value, ON_REASON)) else None)
      case OffByDefaultTracker(d) => (this, if d.Some? then Some(Verdict(d.value, OFF_REASON)) else None)
      case FirstVoterWinsTracker(d, r) =>
        if d.Some? then (this, Some(Verdict(d.value, if r.Some? then r.value else NO_REASON)))
        else if ballot.None? then (this, None)
        else
          var r' := if voteReason != "" then Some(voteReason) else r;
          (FirstVoterWinsTracker(ballot, r'), Some(Verdict(ballot.value, if r'.Some? then r'.value else NO_REASON)))
    }
  }

  function CreateTracker(policy: int): VoteRecord {
    if policy == ON_BY_DEFAULT then OnByDefaultTracker(None)
    else if policy == FIRST_BOOLEAN_WINS then FirstVoterWinsTracker(None, None)
    else if policy == OFF_BY_DEFAULT then OffByDefaultTracker(None)
    else FirstVoterWinsTracker(None, None)
  }

  // ---- one entry, and a fold over the log ----

  datatype IntentionState = IntentionState(tracker: VoteRecord, decided: bool)

  datatype Core = Core(policy: int, states: map<int, IntentionState>)

  const Fresh := Core(ON_BY_DEFAULT, map[])

  function DecisionPayload(id: int, v: Verdict): Payload {
    if v.commit then Commit(id, v.reason) else Abort(id, v.reason)
  }

  /** Effect of one entry on the decider's memory, and the decision it appends. */
  function Process(c: Core, position: nat, p: Payload): (Core, Option<Payload>) {
    match p
    case Intention(_, _) =>
      var (tracker, verdict) := CreateTracker(c.policy).Register();
      (c.(states := c.states[position := IntentionState(tracker, verdict.Some?)]),
       if verdict.Some? then Some(DecisionPayload(position, verdict.value)) else None)
    case Vote(id, ballot, reason) =>
      if id !in c.states || c.states[id].decided then (c, None)
      else
        var (tracker, verdict) := c.states[id].tracker.ApplyVote(ballot, reason);
        (c.(states := c.states[id := IntentionState(tracker, verdict.Some?)]),
         if verdict.Some? then Some(DecisionPayload(id, verdict.value)) else None)
    case DeciderPolicy(policy) => (c.(policy := policy), None)
    case _ => (c, None)
  }

  /** Memory of a decider that has processed log[..n]. */
  function Fold(log: seq<Payload>, n: nat): Core
    requires n <= |log|
  {
    if n == 0 then Fresh else Process(Fold(log, n - 1), n - 1, log[n - 1]).0
  }

  function Output(log: seq<Payload>, n: nat): Option<Payload>
    requires n < |log|
  {
    Process(Fold(log, n), n, log[n]).1
  }

  /** Decisions appended while processing log[lo..hi). */
  function Outputs(log: seq<Payload>, lo: nat, hi: nat): seq<Payload>
    requires lo <= hi <= |log|
  {
    if lo == hi then []
    else Outputs(log, lo, hi - 1) + (if Output(log, hi - 1).Some? then [Output(log, hi - 1).value] else [])
  }

  // ---- the reference: the decision a log determines ----

  predicate IsBallot(p: Payload, id: int) {
    p.Vote? && p.voteFor == id && p.ballot.Some?
  }

  /** The policy in force for an entry at position n: the last one set before it. */
  function PolicyAt(log: seq<Payload>, n: nat): (policy: int)
    requires n <= |log|
    ensures (exists k :: 0 <= k < n && log[k] == DeciderPolicy(policy) && forall j :: k < j < n ==>
        !log[j].DeciderPolicy?)
            || (policy == ON_BY_DEFAULT && forall j :: 0 <= j < n ==> !log[j].DeciderPolicy?)
  {
    if n == 0 then ON_BY_DEFAULT else if log[n - 1].DeciderPolicy? then log[n - 1].policy else PolicyAt(log, n - 1)
  }

  /** The first boolean vote for the intention at p among log[p + 1..n). */
  function FirstBallot(log: seq<Payload>, p: nat, n: nat): (q: Option<nat>)
    requires n <= |log|
    ensures q.Some? ==> p < q.value < n && IsBallot(log[q.value], p) && forall j :: p < j < q.value ==>
        !IsBallot(log[j], p)
    ensures q.None? ==> forall j :: p < j < n ==> !IsBallot(log[j], p)
  {
    if n <= p + 1 then None
    else if FirstBallot(log, p, n - 1).Some? then FirstBallot(log, p, n - 1)
    else if IsBallot(log[n - 1], p) then Some(n - 1)
    else None
  }

  /** What log[..n] decides about the intention at p, from intentions, votes and policies alone. */
  function Decision(log: seq<Payload>, p: nat, n: nat): Option<Verdict>
    requires p < n <= |log|
  {
    var policy := PolicyAt(log, p);
    if policy == ON_BY_DEFAULT then Some(Verdict(true, ON_REASON))
    else if policy == OFF_BY_DEFAULT then Some(Verdict(false, OFF_REASON))
    else
      match FirstBallot(log, p, n)
      case None => None
      case Some(q) => Some(Verdict(log[q].ballot.value,
          if log[q].voteReason == "" then NO_REASON else log[q].voteReason))
  }

  /** The tracker that log[..n] leaves for the intention at p. */
  function Expected(log: seq<Payload>, p: nat, n: nat): IntentionState
    requires p < n <= |log|
  {
    var policy := PolicyAt(log, p);
    if policy == ON_BY_DEFAULT then IntentionState(OnByDefaultTracker(Some(true)), true)
    else if policy == OFF_BY_DEFAULT then IntentionState(OffByDefaultTracker(Some(false)), true)
    else
      match FirstBallot(log, p, n)
      case None => IntentionState(FirstVoterWinsTracker(None, None), false)
      case Some(q) => IntentionState(FirstVoterWinsTracker(log[q].ballot,
          if log[q].voteReason == "" then None else Some(log[q].voteReason)), true)
  }

  /** The decider's memory is what the log determines. */
  lemma {:induction false} FoldMeaning(log: seq<Payload>, n: nat)
    requires n <= |log|
    ensures Fold(log, n).policy == PolicyAt(log, n)
    ensures forall p :: p in Fold(log, n).states <==> 0 <= p < n && log[p].Intention?
    ensures forall p: nat :: p < n && log[p].Intention? ==> Fold(log, n).states[p] == Expected(log, p, n)
  {
    if n > 0 {
      FoldMeaning(log, n - 1);
      forall p: nat | p < n && log[p].Intention?
        ensures p in Fold(log, n).states && Fold(log, n).states[p] == Expected(log, p, n) {
        TrackerMeaning(log, p, n);
      }
    }
  }

  lemma TrackerMeaning(log: seq<Payload>, p: nat, n: nat)
    requires p < n <= |log| && log[p].Intention?
    requires Fold(log, n - 1).policy == PolicyAt(log, n - 1)
    requires p < n - 1 ==> p in Fold(log, n - 1).states && Fold(log, n - 1).states[p] == Expected(log, p, n - 1)
    ensures p in Fold(log, n).states && Fold(log, n).states[p] == Expected(log, p, n)
  {
  }

  /** The decider appends a decision for p exactly at the entry that makes the log decide p, and
      what it appends is the log's decision. */
  lemma OutputMeaning(log: seq<Payload>, n: nat)
    requires n < |log|
    ensures Output(log, n).Some? <==>
        exists p: nat ::
            p <= n && log[p].Intention? && Decision(log, p, n + 1).Some?
            && (p == n || Decision(log, p, n).None?)
    ensures forall p: nat ::
        p <= n && log[p].Intention? && Decision(log, p, n + 1).Some?
        && (p == n || Decision(log, p, n).None?) ==>
        Output(log, n) == Some(DecisionPayload(p, Decision(log, p, n + 1).value))
  {
    FoldMeaning(log, n);
    forall p: nat | p <= n && log[p].Intention? && Decision(log, p, n + 1).Some?
        && (p == n || Decision(log, p, n).None?)
      ensures Output(log, n) == Some(DecisionPayload(p, Decision(log, p, n + 1).value))
    {
      if p < n {
        assert Fold(log, n).states[p] == Expected(log, p, n);
      }
    }
    if Output(log, n).Some? {
      var p := if log[n].Intention? then n else log[n].voteFor;
      assert p <= n && log[p].Intention? && Decision(log, p, n + 1).Some? && (p == n || Decision(log, p, n).None?);
    }
  }

  /** What the decider appends, on the payloads themselves: a Commit at an intention under the on-by-default
      policy or at the first boolean vote for a held intention when it approves, an Abort under the
      off-by-default policy or when that vote denies; nothing otherwise. */
  lemma OutputOnPayloads(log: seq<Payload>, n: nat)
    requires n < |log|
    ensures forall id, reason :: Output(log, n) == Some(Commit(id, reason)) <==>
              || (id == n && log[n].Intention? && PolicyAt(log, n) == ON_BY_DEFAULT && reason == "ON_BY_DEFAULT policy")
              || (IsFirstBallot(log, id, n) && log[n].ballot == Some(true) && reason == SpokenReason(log[n]))
    ensures forall id, reason :: Output(log, n) == Some(Abort(id, reason)) <==>
              || (id == n && log[n].Intention? && PolicyAt(log, n) == OFF_BY_DEFAULT
                  && reason == "OFF_BY_DEFAULT policy")
              || (IsFirstBallot(log, id, n) && log[n].ballot == Some(false) && reason == SpokenReason(log[n]))
    ensures Output(log, n).Some? ==> Output(log, n).value.IsDecision()
  {
    hide Fold, Process, Output, PolicyAt, IsFirstBallot;
    match log[n]
    case Intention(_, _) => OutputAtIntention(log, n); NoBallot(log, n);
    case Vote(_, _, _) => OutputAtVote(log, n); NoOtherBallot(log, n);
    case _ => OutputElsewhere(log, n); NoBallot(log, n);
  }

  lemma NoBallot(log: seq<Payload>, n: nat)
    requires n < |log| && !log[n].Vote?
    ensures forall id :: !IsFirstBallot(log, id, n)
  {
  }

  lemma NoOtherBallot(log: seq<Payload>, n: nat)
    requires n < |log| && log[n].Vote?
    ensures forall id :: IsFirstBallot(log, id, n) ==> id == log[n].voteFor && log[n].ballot.Some?
  {
  }

  lemma OutputAtIntention(log: seq<Payload>, n: nat)
    requires n < |log| && log[n].Intention?
    ensures Output(log, n) ==
              if PolicyAt(log, n) == ON_BY_DEFAULT then Some(Commit(n, "ON_BY_DEFAULT policy"))
              else if PolicyAt(log, n) == OFF_BY_DEFAULT then Some(Abort(n, "OFF_BY_DEFAULT policy"))
              else None
  {
    hide Fold, PolicyAt;
    FoldMeaning(log, n);
  }

  lemma OutputAtVote(log: seq<Payload>, n: nat)
    requires n < |log| && log[n].Vote?
    ensures Output(log, n) ==
              if !IsFirstBallot(log, log[n].voteFor, n) then None
              else if log[n].ballot.value then Some(Commit(log[n].voteFor, SpokenReason(log[n])))
              else Some(Abort(log[n].voteFor, SpokenReason(log[n])))
  {
    hide Fold, PolicyAt;
    FoldMeaning(log, n);
    var id := log[n].voteFor;
    if 0 <= id < n && log[id].Intention? {
      assert Fold(log, n).states[id] == Expected(log, id, n);
      EarlierBallots(log, id, n);
    }
  }

  lemma EarlierBallots(log: seq<Payload>, id: nat, n: nat)
    requires id < n <= |log|
    ensures FirstBallot(log, id, n).None? <==>
            forall j :: id < j < n && log[j].Vote? && log[j].voteFor == id ==> log[j].ballot.None?
  {
    if FirstBallot(log, id, n).None? {
      forall j | id < j < n && log[j].Vote? && log[j].voteFor == id
        ensures log[j].ballot.None?
      {
        assert !IsBallot(log[j], id);
      }
    }
  }

  lemma OutputElsewhere(log: seq<Payload>, n: nat)
    requires n < |log| && !log[n].Intention? && !log[n].Vote?
    ensures Output(log, n) == None
  {
    hide Fold;
  }

  /** The entry at n is the first boolean vote for the intention at id, which a default policy did not decide. */
  ghost predicate IsFirstBallot(log: seq<Payload>, id: int, n: nat)
    requires n < |log|
  {
    && 0 <= id < n && log[id].Intention?
    && PolicyAt(log, id) != ON_BY_DEFAULT && PolicyAt(log, id) != OFF_BY_DEFAULT
    && log[n].Vote? && log[n].voteFor == id && log[n].ballot.Some?
    && forall j :: id < j < n && log[j].Vote? && log[j].voteFor == id ==> log[j].ballot.None?
  }

  function SpokenReason(vote: Payload): string
    requires vote.Vote?
  {
    if vote.voteReason == "" then "No reason provided" else vote.voteReason
  }

  /** A decision, once determined by a prefix, is determined the same way by every longer one. */
  lemma {:induction false} DecisionIsStable(log: seq<Payload>, p: nat, n: nat, n': nat)
    requires p < n <= n' <= |log| && Decision(log, p, n).Some?
    ensures Decision(log, p, n') == Decision(log, p, n)
    decreases n'
  {
    if n < n' {
      DecisionIsStable(log, p, n, n' - 1);
    }
  }

  lemma {:induction false} FoldOfPrefix(log: seq<Payload>, more: seq<Payload>, n: nat)
    requires n <= |log|
    ensures Fold(log + more, n) == Fold(log, n)
  {
    if n > 0 {
      FoldOfPrefix(log, more, n - 1);
    }
  }

  // ---- the decider object ----

  class SharedLog {
    var log: seq<Payload>

    method Append(p: Payload) returns (position: nat)
      modifies this
      ensures log == old(log) + [p] && position == |old(log)|
    {
      position := |log|;
      log := log + [p];
    }
  }

  /** Payload types a decider polls for; other entries never reach it. */
  predicate Polled(p: Payload) {
    MatchesFilter(p, Some([1, 2, 3, 6, 4, 5]))
  }

  predicate Unknown(p: Payload) {
    p.PolicyBatch? || p.OtherControl? || p.Unrecognized?
  }

  class Decider {
    var nextPosition: nat
    var policy: int
    var states: map<int, IntentionState>

    ghost function Memory(): Core
      reads this
    {
      Core(policy, states)
    }

    constructor ()
      ensures nextPosition == 0 && Memory() == Fresh
    {
      nextPosition, policy, states := 0, ON_BY_DEFAULT, map[];
    }

    /** Processes one entry; control entries and unknown payloads, which the poll filters out, are errors. */
    method ProcessEntry(bus: SharedLog, position: nat, p: Payload) returns (ok: bool)
      modifies this, bus
      ensures ok <==> !Unknown(p)
      ensures !ok ==> Memory() == old(Memory()) && bus.log == old(bus.log) && nextPosition == old(nextPosition)
      ensures Memory() == Process(old(Memory()), position, p).0
      ensures bus.log == old(bus.log) + (var out :=
          Process(old(Memory()), position, p).1; if out.Some? then [out.value] else [])
      ensures ok ==> nextPosition == position + 1
    {
      if Unknown(p) {
        return false;
      }
      match p {
        case Intention(_, _) =>
          var (tracker, verdict) := CreateTracker(policy).Register();
          states := states[position := IntentionState(tracker, verdict.Some?)];
          if verdict.Some? {
            var _ := bus.Append(DecisionPayload(position, verdict.value));
          }
        case Vote(id, ballot, reason) =>
          if id in states && !states[id].decided {
            var (tracker, verdict) := states[id].tracker.ApplyVote(ballot, reason);
            states := states[id := IntentionState(tracker, verdict.Some?)];
            if verdict.Some? {
              var _ := bus.Append(DecisionPayload(id, verdict.value));
            }
          }
        case DeciderPolicy(x) => policy := x;
        case _ =>
      }
      nextPosition := position + 1;
      return true;
    }

    /** One poll: process up to 64 polled entries below the tail seen at the start. Whatever the
        batch, the decider ends with the memory, and has appended the decisions, of the log it consumed. */
    method PollAndDecide(bus: SharedLog) returns (count: nat)
      requires nextPosition <= |bus.log| && Memory() == Fold(bus.log, nextPosition)
      modifies this, bus
      ensures old(nextPosition) <= nextPosition <= |old(bus.log)|
      ensures count < MAX_ENTRIES ==> nextPosition == |old(bus.log)|
      ensures bus.log == old(bus.log) + Outputs(old(bus.log), old(nextPosition), nextPosition)
      ensures Memory() == Fold(old(bus.log), nextPosition) == Fold(bus.log, nextPosition)
    {
      ghost var log0 := bus.log;
      var start, tail := nextPosition, |bus.log|;
      var entries := bus.log[..tail];
      var pos := start;
      count := 0;
      while pos < tail && count < MAX_ENTRIES
        invariant start <= pos <= tail && tail == |log0| && entries == log0
        invariant Memory() == Fold(log0, pos)
        invariant bus.log == log0 + Outputs(log0, start, pos)
        decreases tail - pos
      {
        if Polled(entries[pos]) {
          var ok := ProcessEntry(bus, pos, entries[pos]);
          assert ok;
          count := count + 1;
        }
        assert Outputs(log0, start, pos + 1)
            == Outputs(log0, start, pos) + (if Output(log0, pos).Some? then [Output(log0, pos).value] else []);
        pos := pos + 1;
      }
      nextPosition := pos;
      FoldOfPrefix(log0, Outputs(log0, start, pos), pos);
    }
  }
}

/** When racing callers can log conflicting decisions for an intention: exactly when the policy in force
    where it is submitted holds it for a vote. */
module CommitConflicts {
  import opened Bus
  import opened CommitService
  import opened CommitPolicy
  import opened IMC = InMemCommitService
  import opened CommitInterleaving

  // ---- what some steps lead to ----

  ghost predicate Leads(s: State, s': State) {
    exists states: seq<State>, steps: seq<Step> :: IsPath(states, steps) && states[0] == s && states[|steps|] == s'
  }

  lemma LeadsSelf(s: State)
    ensures Leads(s, s)
  {
    var states: seq<State>, steps: seq<Step> := [s], [];
    assert IsPath(states, steps) && states[0] == s && states[|steps|] == s;
  }

  lemma LeadsNext(s0: State, s: State, step: Step, s': State)
    requires Leads(s0, s) && Enabled(s, step) && Next(s, step) == s'
    ensures Leads(s0, s')
  {
    hide Next, Enabled;
    var states: seq<State>, steps: seq<Step> :| IsPath(states, steps) && states[0] == s0 && states[|steps|] == s;
    var states', steps' := states + [s'], steps + [step];
    forall i {:trigger steps'[i]} | 0 <= i < |steps'|
      ensures Enabled(states'[i], steps'[i]) && states'[i + 1] == Next(states'[i], steps'[i])
    {
      if i < |steps| {
        assert steps'[i] == steps[i];
      }
    }
    assert IsPath(states', steps') && states'[0] == s0 && states'[|steps'|] == s';
  }

  lemma LeadsKeepsInv(s: State, s': State)
    requires Inv(s) && Leads(s, s')
    ensures Inv(s')
  {
    hide Inv, Next, Enabled;
    var states: seq<State>, steps: seq<Step> :| IsPath(states, steps) && states[0] == s && states[|steps|] == s';
    PathKeepsInv(states, steps, |steps|);
  }

  /** The log only grows. */
  lemma StepExtendsLog(s: State, step: Step)
    requires Enabled(s, step)
    ensures |s.log| <= |Next(s, step).log| && Next(s, step).log[..|s.log|] == s.log
  {
    hide ProcessEntry;
  }

  lemma {:induction false} PathExtendsLog(states: seq<State>, steps: seq<Step>, n: nat)
    requires IsPath(states, steps) && n <= |steps|
    ensures |states[0].log| <= |states[n].log| && states[n].log[..|states[0].log|] == states[0].log
  {
    hide Next, Enabled;
    if n > 0 {
      PathExtendsLog(states, steps, n - 1);
      assert steps[n - 1] == steps[n - 1];
      StepExtendsLog(states[n - 1], steps[n - 1]);
    }
  }

  lemma LeadsExtendsLog(s: State, s': State)
    requires Leads(s, s')
    ensures |s.log| <= |s'.log| && s'.log[..|s.log|] == s.log
  {
    hide Next, Enabled;
    var states: seq<State>, steps: seq<Step> :| IsPath(states, steps) && states[0] == s && states[|steps|] == s';
    PathExtendsLog(states, steps, |steps|);
  }

  /** Two different decisions for p are logged. */
  ghost predicate Conflict(log: seq<Payload>, p: nat) {
    exists q, q' :: 0 <= q < |log| && 0 <= q' < |log| && log[q].Decides(p) && log[q'].Decides(p) && log[q] != log[q']
  }

  ghost predicate CanConflict(s: State, p: nat) {
    exists s' :: Leads(s, s') && Conflict(s'.log, p)
  }

  // ---- one caller running alone ----

  /** The policy in force held the intention at p for a vote, and only decisions of others followed it. */
  ghost predicate Waits(log: seq<Payload>, p: nat) {
    && p < |log| && log[p].Intention? && Fold(log, p).Some?
    && Held(log, p)
    && forall k :: p < k < |log| ==> log[k].IsDecision() && DecisionId(log[k]) != p
  }

  lemma WaitsAppend(log: seq<Payload>, d: Payload, p: nat)
    requires Waits(log, p) && d.IsDecision() && DecisionId(d) != p
    ensures Waits(log + [d], p)
  {
    hide Held;
    FoldOfPrefix(log, [d], p);
    HeldOfPrefix(log, [d], p);
  }

  lemma StillWaits(log: seq<Payload>, p: nat, n: nat)
    requires Waits(log, p) && p < n <= |log|
    ensures Waiting(log, n, p)
  {
    hide Fold, KindAfter, VersionAfter, ConstraintMet;
    forall j | p < j < n
      ensures !EndsWait(log, j, p)
    {
      assert log[j].IsDecision() && DecisionId(log[j]) != p;
    }
  }

  /** The fold reads all of such a log, and from p on holds p. */
  lemma {:induction false} WaitsFold(log: seq<Payload>, p: nat, n: nat)
    requires Waits(log, p) && n <= |log|
    ensures Fold(log, n).Some?
    ensures p < n ==> Fold(log, n).value.pending == Some(p)
  {
    if n <= p {
      FoldDefined(log, n, p);
    } else {
      WaitsFold(log, p, n - 1);
      StillWaits(log, p, n);
      PendingMeaning(log, n, p);
    }
  }

  /** Nothing the fold produces on such a log decides p. */
  lemma WaitsOutput(log: seq<Payload>, p: nat, n: nat)
    requires Waits(log, p) && NamesEarlier(log) && n < |log| && Output(log, n).Some?
    ensures Output(log, n).value.IsDecision() && DecisionId(Output(log, n).value) != p
  {
    hide Held, AtOnce, Fold;
    OutputNames(log, n);
    if n > p {
      DrainedOutput(log, ReplayState(n, None, None));
    } else if n == p {
      HeldIff(log, p);
      DecisionAtIntention(log, p);
    }
  }

  lemma NoneDecides(log: seq<Payload>, p: nat, k: nat)
    requires Waits(log, p) && NamesEarlier(log) && k < |log|
    ensures LoggedOutcome(log[k], p).None?
  {
    hide Fold;
    if log[k].IsDecision() && k <= p {
      assert DecisionId(log[k]) < k;
    }
  }

  /** The entry at the cursor is accepted and produces nothing for p. */
  lemma WaitsConsume(log: seq<Payload>, st: ReplayState, p: nat)
    requires Waits(log, p) && NamesEarlier(log) && Near(log, st) && st.next < |log|
    ensures var r := ProcessEntry(st, log[st.next], st.next);
            && r.Accepted?
            && (r.output.Some? ==> r.output.value.IsDecision() && DecisionId(r.output.value) != p)
  {
    hide ProcessEntry, Waits, NamesEarlier;
    WaitsFold(log, p, st.next + 1);
    ProcessNear(st, Fold(log, st.next).value, log[st.next], st.next);
    ConsumeNear(log, st);
    if Output(log, st.next).Some? {
      WaitsOutput(log, p, st.next);
    }
  }

  /** A caller about to abort an intention that is still pending, with nothing left to replay. */
  predicate OnTheBrink(s: State, c: nat, p: nat) {
    && c in s.callers && s.callers[c].p == p && s.callers[c].phase.DrainAppend?
    && s.shared.next == |s.log| && s.shared.pending == Some(p)
  }

  predicate Replaying(phase: Phase) {
    phase.CheckTail? || phase.ReadBatch? || phase.Process?
  }

  function Rank(phase: Phase): nat {
    if phase.CheckTail? then 2 else if phase.ReadBatch? then 1 else 0
  }

  /** A state in which caller c is replaying for a waiting p. */
  ghost predicate Solo(s: State, c: nat, p: nat) {
    && c in s.callers && s.callers[c].p == p && Replaying(s.callers[c].phase)
    && Waits(s.log, p) && Inv(s)
  }

  /** At the end of the log the intention is pending. */
  lemma SoloArrives(s: State, c: nat, p: nat)
    requires Solo(s, c, p) && s.callers[c].phase.CheckTail? && s.callers[c].position >= |s.log|
    ensures OnTheBrink(Next(s, Advance(c)), c, p)
  {
    hide Fold, ProcessEntry, Decisions, LoggedBelow, NoDecisionBefore, Waits;
    assert CallerInv(s.log, s.shared.next, s.callers[c]);
    assert p < |s.log| by {
      WaitsInLog(s.log, p);
    }
    WaitsFold(s.log, p, |s.log|);
  }

  lemma WaitsInLog(log: seq<Payload>, p: nat)
    requires Waits(log, p)
    ensures p < |log| && log[p].Intention?
  {
  }

  function Left(s: State, c: nat): nat
    requires c in s.callers
  {
    Remaining(s.log, s.shared, s.callers[c].position)
  }

  /** One or three steps of the caller over the entry at its position. */
  lemma SoloProcess(s0: State, s: State, c: nat, p: nat) returns (s': State)
    requires Leads(s0, s) && Solo(s, c, p) && s.callers[c].phase.Process?
    ensures Leads(s0, s') && Solo(s', c, p) && s'.callers.Keys == s.callers.Keys && Left(s', c) < Left(s, c)
  {
    hide Leads, Inv, ProcessEntry, Waits, Work;
    var caller := s.callers[c];
    SoloFacts(s, c, p);
    if caller.position < s.shared.next {
      s' := Next(s, Advance(c));
    } else {
      WaitsConsume(s.log, s.shared, p);
      ConsumeLeavesLessWork(s.log, s.shared);
      ProcessOutcome(s.shared, s.log[s.shared.next], s.shared.next);
      var out := ProcessEntry(s.shared, s.log[s.shared.next], s.shared.next).output;
      s' := Next(s, Advance(c));
      if out.Some? {
        var s1 := s';
        StepKeepsInv(s, Advance(c));
        LeadsNext(s0, s, Advance(c), s1);
        var s2 := Next(s1, Advance(c));
        StepKeepsInv(s1, Advance(c));
        LeadsNext(s0, s1, Advance(c), s2);
        s' := Next(s2, Advance(c));
        StepKeepsInv(s2, Advance(c));
        LeadsNext(s0, s2, Advance(c), s');
        WaitsAppend(s.log, out.value, p);
        return;
      }
    }
    StepKeepsInv(s, Advance(c));
    LeadsNext(s0, s, Advance(c), s');
  }

  lemma SoloFacts(s: State, c: nat, p: nat)
    requires Solo(s, c, p) && s.callers[c].phase.Process?
    ensures NamesEarlier(s.log) && Near(s.log, s.shared)
    ensures var caller := s.callers[c];
            && caller.position <= s.shared.next <= |s.log| && caller.position < |s.log|
            && caller.phase.batch != [] && caller.phase.batch[0] == s.log[caller.position]
            && LoggedOutcome(caller.phase.batch[0], p).None?
  {
    hide ProcessEntry, Fold, Waits, NoDecisionBefore, HasCause, DrainsHeld;
    assert CallerInv(s.log, s.shared.next, s.callers[c]);
    NoneDecides(s.log, p, s.callers[c].position);
  }

  /** A caller running alone ends up about to abort. */
  lemma {:induction false} SoloReaches(s0: State, s: State, c: nat, p: nat) returns (b: State)
    requires Leads(s0, s) && Solo(s, c, p)
    ensures Leads(s0, b) && OnTheBrink(b, c, p) && b.callers.Keys == s.callers.Keys
    decreases Left(s, c), Rank(s.callers[c].phase)
  {
    hide Leads, Inv, Waits, Work, ProcessEntry;
    var next := Next(s, Advance(c));
    if s.callers[c].phase.Process? {
      var s' := SoloProcess(s0, s, c, p);
      b := SoloReaches(s0, s', c, p);
    } else {
      StepKeepsInv(s, Advance(c));
      LeadsNext(s0, s, Advance(c), next);
      if s.callers[c].phase.CheckTail? && s.callers[c].position >= |s.log| {
        SoloArrives(s, c, p);
        b := next;
      } else {
        if s.callers[c].phase.ReadBatch? {
          ReadsInRange(s, c, p);
        }
        b := SoloReaches(s0, next, c, p);
      }
    }
  }

  lemma ReadsInRange(s: State, c: nat, p: nat)
    requires Solo(s, c, p) && s.callers[c].phase.ReadBatch?
    ensures s.callers[c].position < s.callers[c].phase.tail <= |s.log|
  {
    assert CallerInv(s.log, s.shared.next, s.callers[c]);
  }

  // ---- from there a vote makes the conflict ----

  function Ballot(p: int): Payload { Vote(p, Some(true), "") }

  function Late(body: Body): Payload { Intention(body, Unconstrained) }

  /** A vote for p and a second intention arrived, and the second caller is at the vote. */
  function Overtaking(s: State, p: nat, c2: nat, body: Body, phase: Phase): State {
    s.(log := s.log + [Ballot(p), Late(body)], callers := s.callers[c2 := Caller(|s.log| + 1, |s.log|, phase)])
  }

  lemma OvertakerReads(s0: State, s: State, c: nat, p: nat, c2: nat, body: Body)
    requires Leads(s0, s) && OnTheBrink(s, c, p) && c2 !in s.callers
    ensures Leads(s0, Overtaking(s, p, c2, body, Process(|s.log| + 2, [Ballot(p), Late(body)])))
  {
    hide Leads;
    var n := |s.log|;
    var s1 := s.(log := s.log + [Ballot(p)]);
    LeadsNext(s0, s, External(Ballot(p)), s1);
    var log := s.log + [Ballot(p), Late(body)];
    assert s1.log + [Late(body)] == log;
    var s2 := State(log, s.shared, s.callers[c2 := Caller(n + 1, 0, Begin)]);
    LeadsNext(s0, s1, Submit(c2, body, Unconstrained), s2);
    var s3, s4 := Overtaking(s, p, c2, body, CheckTail), Overtaking(s, p, c2, body, ReadBatch(n + 2));
    assert s2.callers[c2 := s3.callers[c2]] == s3.callers && s3.callers[c2 := s4.callers[c2]] == s4.callers;
    LeadsNext(s0, s2, Advance(c2), s3);
    LeadsNext(s0, s3, Advance(c2), s4);
    var s5 := Overtaking(s, p, c2, body, Process(n + 2, [Ballot(p), Late(body)]));
    assert log[n..n + 2] == [Ballot(p), Late(body)] && s4.callers[c2 := s5.callers[c2]] == s5.callers;
    LeadsNext(s0, s4, Advance(c2), s5);
  }

  /** The second caller logs the vote's commit before the first one's abort. */
  lemma ConflictFollows(s0: State, s: State, c: nat, p: nat, c2: nat, body: Body)
    requires Leads(s0, s) && OnTheBrink(s, c, p) && c2 !in s.callers
    ensures exists s' ::
        Leads(s0, s')
        && s'.log == s.log + [Ballot(p), Late(body), Commit(p, DEFAULT_REASON), Abort(p, DRAIN_REASON)]
  {
    hide Leads;
    OvertakerReads(s0, s, c, p, c2, body);
    var n, batch := |s.log|, [Ballot(p), Late(body)];
    var s5 := Overtaking(s, p, c2, body, Process(n + 2, batch));
    var next, d := s.shared.(next := n + 1, pending := None), Commit(p, DEFAULT_REASON);
    var s6 := Overtaking(s, p, c2, body, AppendOutput(n + 2, batch, next, n, d));
    assert s5.callers[c2 := s6.callers[c2]] == s6.callers;
    LeadsNext(s0, s5, Advance(c2), s6);
    var s7 := Overtaking(s, p, c2, body, Install(n + 2, batch, next, n));
    s7 := s7.(log := s7.log + [d]);
    assert s6.callers[c2 := s7.callers[c2]] == s7.callers;
    LeadsNext(s0, s6, Advance(c2), s7);
    var abort := Abort(p, DRAIN_REASON);
    var s8 := s7.(log := s7.log + [abort], callers := s7.callers[c := s7.callers[c].(phase := DrainClear)]);
    LeadsNext(s0, s7, Advance(c), s8);
    assert s8.log == s.log + [Ballot(p), Late(body), d, abort];
  }

  lemma CommitAndAbortConflict(log: seq<Payload>, more: seq<Payload>, p: nat)
    requires |more| == 4 && more[2] == Commit(p, DEFAULT_REASON) && more[3] == Abort(p, DRAIN_REASON)
    ensures Conflict(log + more, p)
  {
    assert (log + more)[|log| + 2] == more[2] && (log + more)[|log| + 3] == more[3];
  }

  // ---- the exact condition ----

  /** Submitting the next intention. */
  function Submitted(s: State, c: nat, body: Body, constraint: Constraint): State
    requires c !in s.callers
  {
    Next(s, Submit(c, body, constraint))
  }

  /** The policy in force at the end of the log would hold an intention with this constraint for a vote. */
  predicate HoldsNext(log: seq<Payload>, constraint: Constraint) {
    && KindAfter(log, |log|) != ON_BY_DEFAULT && KindAfter(log, |log|) != OFF_BY_DEFAULT
    && match constraint
       case Unconstrained => true
       case Required(v) => VersionAfter(log, |log|) == Some(v)
       case Minimum(v) => VersionAfter(log, |log|).Some? && v <= VersionAfter(log, |log|).value
  }

  lemma HeldOnceSubmitted(log: seq<Payload>, body: Body, constraint: Constraint, more: seq<Payload>)
    ensures Held(log + [Intention(body, constraint)] + more, |log|) <==> HoldsNext(log, constraint)
  {
    hide KindAfter, VersionAfter;
    var rest := [Intention(body, constraint)] + more;
    assert log + [Intention(body, constraint)] + more == log + rest;
    VersionOfPrefix(log, rest, |log|);
    KindOfPrefix(log, rest, |log|);
  }

  lemma WaitsOnceSubmitted(log: seq<Payload>, body: Body, constraint: Constraint)
    requires Fold(log, |log|).Some? && HoldsNext(log, constraint)
    ensures Waits(log + [Intention(body, constraint)], |log|)
  {
    hide Held, HoldsNext, Fold;
    FoldOfPrefix(log, [Intention(body, constraint)], |log|);
    HeldOnceSubmitted(log, body, constraint, []);
    assert log + [Intention(body, constraint)] + [] == log + [Intention(body, constraint)];
  }

  /** A held intention can end with conflicting decisions. */
  lemma HeldCanConflict(s: State, c: nat, c2: nat, body: Body, constraint: Constraint)
    requires Inv(s) && c !in s.callers && c2 !in s.callers && c != c2 && Fold(s.log, |s.log|).Some?
    requires HoldsNext(s.log, constraint)
    ensures CanConflict(Submitted(s, c, body, constraint), |s.log|)
  {
    hide Leads, Inv, Fold, CanConflict, HoldsNext, Waits, OnTheBrink;
    var p, s0 := |s.log|, Submitted(s, c, body, constraint);
    WaitsOnceSubmitted(s.log, body, constraint);
    StepKeepsInv(s, Submit(c, body, constraint));
    LeadsSelf(s0);
    var s1 := Next(s0, Advance(c));
    StepKeepsInv(s0, Advance(c));
    LeadsNext(s0, s0, Advance(c), s1);
    var b := SoloReaches(s0, s1, c, p);
    ConflictFollows(s0, b, c, p, c2, body);
    var more := [Ballot(p), Late(body), Commit(p, DEFAULT_REASON), Abort(p, DRAIN_REASON)];
    var s' :| Leads(s0, s') && s'.log == b.log + more;
    CommitAndAbortConflict(b.log, more, p);
    ConflictReached(s0, s', p);
  }

  lemma ConflictReached(s: State, s': State, p: nat)
    requires Leads(s, s') && Conflict(s'.log, p)
    ensures CanConflict(s, p)
  {
  }

  /** One the policy decides at once cannot. */
  lemma DecidedCannotConflict(s: State, c: nat, body: Body, constraint: Constraint)
    requires Inv(s) && c !in s.callers && Fold(s.log, |s.log|).Some? && !HoldsNext(s.log, constraint)
    ensures !CanConflict(Submitted(s, c, body, constraint), |s.log|)
  {
    hide Leads, Inv, Fold, Conflict, HoldsNext, Held;
    var p, s0 := |s.log|, Submitted(s, c, body, constraint);
    StepKeepsInv(s, Submit(c, body, constraint));
    forall s' | Leads(s0, s')
      ensures !Conflict(s'.log, p)
    {
      LeadsKeepsInv(s0, s');
      LeadsExtendsLog(s0, s');
      var more := s'.log[p + 1..];
      assert s'.log == s.log + [Intention(body, constraint)] + more;
      assert s'.log == s.log + ([Intention(body, constraint)] + more);
      FoldOfPrefix(s.log, [Intention(body, constraint)] + more, p);
      HeldOnceSubmitted(s.log, body, constraint, more);
      InvExcludesConflict(s', p);
    }
  }

  lemma InvExcludesConflict(s: State, p: nat)
    requires Inv(s) && p < |s.log| && s.log[p].Intention? && Fold(s.log, p).Some? && !Held(s.log, p)
    ensures !Conflict(s.log, p)
  {
    hide Near, LoggedBelow, CallerInv, Fold, Decisions, Held, AtOnce, ProcessEntry;
    HeldIff(s.log, p);
    DecisionAtIntention(s.log, p);
    forall q | 0 <= q < |s.log| && s.log[q].Decides(p)
      ensures s.log[q] == Output(s.log, p).value
    {
      OnlyPolicyDecision(s.log, p, q);
    }
  }

  /** In every reachable state with a readable log: the intention submitted next can end with conflicting
      decisions if and only if its constraint is met and the policy in force holds it for a vote. */
  lemma ConflictPossibleIff(states: seq<State>, steps: seq<Step>, n: nat, c: nat, c2: nat, body: Body,
      constraint: Constraint)
    requires IsRun(states, steps) && n <= |steps| && c !in states[n].callers && c2 !in states[n].callers && c != c2
    requires Fold(states[n].log, |states[n].log|).Some?
    ensures var s := states[n];
            CanConflict(Submitted(s, c, body, constraint), |s.log|) <==> HoldsNext(s.log, constraint)
  {
    hide Inv, CanConflict, Fold, Next, Enabled, HoldsNext;
    RunKeepsInv(states, steps, n);
    if HoldsNext(states[n].log, constraint) {
      HeldCanConflict(states[n], c, c2, body, constraint);
    } else {
      DecidedCannotConflict(states[n], c, body, constraint);
    }
  }

  // ---- a conflict, step by step ----

  const Empty := State([], Start, map[])
  const VoteRule := Policy(1, FIRST_BOOLEAN_WINS)
  const Batch := PolicyBatch(None, 1, Some(FIRST_BOOLEAN_WINS))

  function Mine(body: Body): Payload { Intention(body, Minimum(1)) }

  /** A caller submits its intention after the policy and reads the log. */
  lemma DrainerReads(body: Body)
    ensures Leads(Empty, State([Batch, Mine(body)], Start, map[0 := Caller(1, 0, Process(2, [Batch, Mine(body)]))]))
  {
    hide Leads;
    var log := [Batch, Mine(body)];
    LeadsSelf(Empty);
    var s1, s2 := State([Batch], Start, map[]), State(log, Start, map[0 := Caller(1, 0, Begin)]);
    LeadsNext(Empty, Empty, External(Batch), s1);
    LeadsNext(Empty, s1, Submit(0, body, Minimum(1)), s2);
    var s3 := s2.(callers := map[0 := Caller(1, 0, CheckTail)]);
    var s4 := s2.(callers := map[0 := Caller(1, 0, ReadBatch(2))]);
    LeadsNext(Empty, s2, Advance(0), s3);
    LeadsNext(Empty, s3, Advance(0), s4);
    assert log[0..2] == log;
    LeadsNext(Empty, s4, Advance(0), s2.(callers := map[0 := Caller(1, 0, Process(2, log))]));
  }

  /** It reaches the end of the log undecided and is about to abort. */
  lemma DrainerArrives(body: Body)
    ensures Leads(Empty, State([Batch, Mine(body)], ReplayState(2, Some(VoteRule), Some(1)),
        map[0 := Caller(1, 2, DrainAppend)]))
  {
    hide Leads;
    DrainerReads(body);
    var log := [Batch, Mine(body)];
    var s5 := State(log, Start, map[0 := Caller(1, 0, Process(2, log))]);
    var s6 := State(log, ReplayState(1, Some(VoteRule), None), map[0 := Caller(1, 1, Process(2, [Mine(body)]))]);
    LeadsNext(Empty, s5, Advance(0), s6);
    var s7 := State(log, ReplayState(2, Some(VoteRule), Some(1)), map[0 := Caller(1, 2, CheckTail)]);
    LeadsNext(Empty, s6, Advance(0), s7);
    LeadsNext(Empty, s7, Advance(0), s7.(callers := map[0 := Caller(1, 2, DrainAppend)]));
  }

  /** A log with a commit and a drain abort of the same intention is reached. */
  lemma ConflictHappens(body: Body)
    ensures exists s ::
        Leads(Empty, s)
        && s.log == [Batch, Mine(body), Ballot(1), Late(body), Commit(1, DEFAULT_REASON), Abort(1, DRAIN_REASON)]
  {
    hide Leads;
    DrainerArrives(body);
    var s := State([Batch, Mine(body)], ReplayState(2, Some(VoteRule), Some(1)), map[0 := Caller(1, 2, DrainAppend)]);
    ConflictFollows(Empty, s, 0, 1, 1, body);
    assert s.log + [Ballot(1), Late(body), Commit(1, DEFAULT_REASON), Abort(1, DRAIN_REASON)]
        == [Batch, Mine(body), Ballot(1), Late(body), Commit(1, DEFAULT_REASON), Abort(1, DRAIN_REASON)];
  }
}

/** The in-memory commit service when every bus call is a yield point: any number of `commit_intention`
    callers replay one log and race on the shared replay state. Only the service writes decisions. */
module CommitInterleaving {
  import opened Bus
  import opened CommitService
  import opened CommitPolicy
  import opened IMC = InMemCommitService

  /** Where a caller of `replay` is; each constructor is the bus call or update it does next. */
  datatype Phase =
    | Begin
    | CheckTail
    | DrainAppend
    | DrainClear
    | ReadBatch(tail: nat)
    | Process(tail: nat, batch: seq<Payload>)
    | AppendOutput(tail: nat, batch: seq<Payload>, next: ReplayState, expected: nat, output: Payload)
    | Install(tail: nat, batch: seq<Payload>, next: ReplayState, expected: nat)
    | Returned(outcome: Outcome)
    | Failed

  datatype Caller = Caller(p: nat, position: nat, phase: Phase)
  datatype State = State(log: seq<Payload>, shared: ReplayState, callers: map<nat, Caller>)
  datatype Step = External(entry: Payload) | Submit(id: nat, body: Body, constraint: Constraint) | Advance(id: nat)
  datatype Moved = Moved(log: seq<Payload>, shared: ReplayState, caller: Caller)

  /** After the entry at the caller's position: return its decision, or move to the next entry. */
  function Finish(c: Caller, tail: nat, batch: seq<Payload>): Caller
    requires batch != []
  {
    match LoggedOutcome(batch[0], c.p)
    case Some(o) => c.(phase := Returned(o))
    case None =>
      c.(position := c.position + 1,
         phase := if |batch| > 1 then Process(tail, batch[1..]) else if c.position + 1 < tail then ReadBatch(tail)
             else CheckTail)
  }

  /** The caller's next step; total, so that a state no run reaches needs no precondition. */
  function Move(log: seq<Payload>, shared: ReplayState, c: Caller): Moved {
    match c.phase
    case Begin => Moved(log, shared, c.(position := if shared.next < c.p then shared.next else c.p, phase := CheckTail))
    case CheckTail => Moved(log, shared, c.(phase := if c.position >= |log| then DrainAppend else ReadBatch(|log|)))
    case DrainAppend => Moved(log + [Abort(c.p, DRAIN_REASON)], shared, c.(phase := DrainClear))
    case DrainClear => Moved(log, Cleared(shared, c.p), c.(phase := CheckTail))
    case ReadBatch(tail) =>
      if c.position < tail <= |log| then
        Moved(log, shared, c.(phase :=
            Process(tail, log[c.position..if tail - c.position < READ_LIMIT then tail else c.position + READ_LIMIT])))
      else Moved(log, shared, c)
    case Process(tail, batch) =>
      if batch == [] then Moved(log, shared, c)
      else if c.position < shared.next then Moved(log, shared, Finish(c, tail, batch))
      else (
        match ProcessEntry(shared, batch[0], c.position)
        case Rejected => Moved(log, shared, c.(phase := Failed))
        case Accepted(st, None) => Moved(log, st.(next := c.position + 1), Finish(c, tail, batch))
        case Accepted(st, Some(output)) =>
          Moved(log, shared, c.(phase := AppendOutput(tail, batch, st.(next := c.position + 1), shared.next, output))))
    case AppendOutput(tail, batch, next, expected, output) =>
      Moved(log + [output], shared, c.(phase := Install(tail, batch, next, expected)))
    case Install(tail, batch, next, expected) =>
      if batch == [] then Moved(log, shared, c)
      else Moved(log, if shared.next == expected then next else shared, Finish(c, tail, batch))
    case Returned(_) => Moved(log, shared, c)
    case Failed => Moved(log, shared, c)
  }

  predicate Enabled(s: State, step: Step) {
    match step
    case External(e) => !e.IsDecision()
    case Submit(id, _, _) => id !in s.callers
    case Advance(id) => id in s.callers
  }

  function Next(s: State, step: Step): State
    requires Enabled(s, step)
  {
    match step
    case External(e) => s.(log := s.log + [e])
    case Submit(id, body, constraint) =>
      s.(log := s.log + [Intention(body, constraint)], callers := s.callers[id := Caller(|s.log|, 0, Begin)])
    case Advance(id) =>
      var m := Move(s.log, s.shared, s.callers[id]);
      State(m.log, m.shared, s.callers[id := m.caller])
  }

  // ---- the shared state stays near the fold ----

  ghost predicate Ahead(log: seq<Payload>, n: nat, x: int) {
    exists q :: n <= q < |log| && log[q].IsDecision() && DecisionId(log[q]) == x
  }

  /** Policies agree; `pending` agrees or was cleared early by a drain whose abort is still ahead. */
  ghost predicate NearFold(log: seq<Payload>, st: ReplayState, f: ReplayState) {
    && st.next == f.next && st.policy == f.policy
    && (st.pending == f.pending || (st.pending.None? && f.pending.Some? && Ahead(log, st.next, f.pending.value)))
  }

  ghost predicate Near(log: seq<Payload>, st: ReplayState) {
    st.next <= |log| && Fold(log, st.next).Some? && NearFold(log, st, Fold(log, st.next).value)
  }

  lemma NearAppend(log: seq<Payload>, more: seq<Payload>, st: ReplayState)
    requires Near(log, st)
    ensures Near(log + more, st)
  {
    FoldOfPrefix(log, more, st.next);
    var f := Fold(log, st.next).value;
    if st.pending != f.pending {
      var q :| st.next <= q < |log| && log[q].IsDecision() && DecisionId(log[q]) == f.pending.value;
      assert (log + more)[q] == log[q];
    }
  }

  lemma AheadOf(log: seq<Payload>, n: nat, x: int)
    requires n < |log| && Ahead(log, n, x)
    ensures (log[n].IsDecision() && DecisionId(log[n]) == x) || Ahead(log, n + 1, x)
  {
  }

  /** Near the fold, the entry is accepted alike and produces the fold's decision or nothing. */
  lemma ProcessNear(st: ReplayState, f: ReplayState, e: Payload, n: nat)
    requires st.policy == f.policy && (st.pending == f.pending || st.pending == None)
    ensures var r, rf := ProcessEntry(st, e, n), ProcessEntry(f, e, n);
            && r.Accepted? == rf.Accepted?
            && (r.Accepted? ==>
                  && r.state.policy == rf.state.policy
                  && (r.output == None || r.output == rf.output)
                  && (e.Intention? ==> r.output == rf.output)
                  && (r.state.pending == rf.state.pending
                      || (r.state.pending == st.pending == None && rf.state.pending == f.pending))
                  && (e.IsDecision() && f.pending == Some(DecisionId(e)) ==> rf.state.pending == None))
  {
  }

  lemma ConsumeNear(log: seq<Payload>, st: ReplayState)
    requires Near(log, st) && st.next < |log| && ProcessEntry(st, log[st.next], st.next).Accepted?
    ensures var r := ProcessEntry(st, log[st.next], st.next);
            && Near(log, r.state.(next := st.next + 1))
            && (r.output == None || r.output == Output(log, st.next))
            && (log[st.next].Intention? ==> r.output == Output(log, st.next))
  {
    hide ProcessEntry, Ahead;
    var n, f := st.next, Fold(log, st.next).value;
    ProcessNear(st, f, log[n], n);
    if st.pending != f.pending {
      AheadOf(log, n, f.pending.value);
    }
  }

  // ---- what the fold holds pending ----

  /** Decisions name strictly earlier intentions. */
  ghost predicate NamesEarlier(log: seq<Payload>) {
    forall q :: 0 <= q < |log| && log[q].IsDecision() ==>
        0 <= DecisionId(log[q]) < q && log[DecisionId(log[q])].Intention?
  }

  ghost predicate OpenIntention(log: seq<Payload>, n: nat, x: int) {
    && 0 <= x < n <= |log| && log[x].Intention?
    && forall q :: 0 <= q < n && log[q].IsDecision() ==> DecisionId(log[q]) != x
  }

  lemma ProcessPending(st: ReplayState, e: Payload, n: nat)
    requires ProcessEntry(st, e, n).Accepted?
    ensures var pending := ProcessEntry(st, e, n).state.pending;
            && (pending.Some? && pending == st.pending ==> !(e.IsDecision() && DecisionId(e) == pending.value))
            && (pending.Some? && pending != st.pending ==> e.Intention? && pending.value == n)
  {
  }

  /** The fold holds an intention only while the log it has read has no decision for it. */
  lemma {:induction false} PendingIsOpen(log: seq<Payload>, n: nat)
    requires NamesEarlier(log) && n <= |log| && Fold(log, n).Some?
    ensures Fold(log, n).value.pending.Some? ==> OpenIntention(log, n, Fold(log, n).value.pending.value)
  {
    hide ProcessEntry;
    if n > 0 {
      PendingIsOpen(log, n - 1);
      ProcessPending(Fold(log, n - 1).value, log[n - 1], n - 1);
    }
  }

  /** Clearing `pending` after the abort was logged keeps the state near the fold. */
  lemma ClearNear(log: seq<Payload>, st: ReplayState, p: nat, q: nat)
    requires Near(log, st) && NamesEarlier(log) && q < |log| && log[q] == Abort(p, DRAIN_REASON)
    ensures Near(log, Cleared(st, p))
  {
    hide Fold;
    PendingIsOpen(log, st.next);
    if st.pending == Some(p) {
      assert q >= st.next;
    }
  }

  /** What the fold decides at n is an intention it has read: the one at n, or the pending one. */
  lemma OutputNames(log: seq<Payload>, n: nat)
    requires NamesEarlier(log) && n < |log| && Output(log, n).Some?
    ensures var d := Output(log, n).value; d.IsDecision() && 0 <= DecisionId(d) <= n && log[DecisionId(d)].Intention?
  {
    hide ProcessEntry, NamesEarlier;
    PendingIsOpen(log, n);
    ProcessOutcome(Fold(log, n).value, log[n], n);
  }

  // ---- the invariant ----

  /** A drain abort of an intention the fold does not decide at its own position. */
  ghost predicate DrainsHeld(log: seq<Payload>, d: Payload) {
    IsDrain(d) && 0 <= d.aborted < |log| && Output(log, d.aborted).None?
  }

  /** Decisions name earlier intentions; each is one the fold produces or a drain abort of a held intention. */
  ghost predicate Decisions(log: seq<Payload>) {
    && NamesEarlier(log)
    && forall q :: 0 <= q < |log| && log[q].IsDecision() ==> DrainsHeld(log, log[q]) || HasCause(log, |log|, log[q])
  }

  /** If the fold decides the intention at p at its own position, that decision is logged. */
  ghost predicate LoggedAt(log: seq<Payload>, p: nat) {
    p < |log| && (log[p].Intention? && Output(log, p).Some? ==> Output(log, p).value in log)
  }

  ghost predicate LoggedBelow(log: seq<Payload>, n: nat) {
    forall p: nat :: p < n ==> LoggedAt(log, p)
  }

  ghost predicate Holds(log: seq<Payload>, position: nat, tail: nat, batch: seq<Payload>) {
    batch != [] && position + |batch| <= tail <= |log| && batch == log[position..position + |batch|]
  }

  ghost predicate DrainLogged(log: seq<Payload>, p: nat) {
    exists q :: 0 <= q < |log| && log[q] == Abort(p, DRAIN_REASON)
  }

  /** The first decision for p in the log reports this outcome. */
  ghost predicate FirstDecision(log: seq<Payload>, p: nat, outcome: Outcome) {
    exists q :: p < q < |log| && LoggedOutcome(log[q], p) == Some(outcome) && NoDecisionBefore(log, p, q)
  }

  ghost predicate PhaseInv(log: seq<Payload>, c: Caller)
    requires c.p < |log|
  {
    match c.phase
    case Begin => true
    case CheckTail => true
    case DrainAppend => Output(log, c.p).None?
    case DrainClear => DrainLogged(log, c.p)
    case ReadBatch(tail) => c.position < tail <= |log|
    case Process(tail, batch) => Holds(log, c.position, tail, batch)
    case AppendOutput(tail, batch, next, expected, output) =>
      && Holds(log, c.position, tail, batch) && expected == c.position
      && next.next == c.position + 1 && Near(log, next) && Output(log, c.position) == Some(output)
    case Install(tail, batch, next, expected) =>
      && Holds(log, c.position, tail, batch) && expected == c.position
      && next.next == c.position + 1 && Near(log, next) && LoggedAt(log, c.position)
    case Returned(outcome) => FirstDecision(log, c.p, outcome)
    case Failed => true
  }

  ghost predicate CallerInv(log: seq<Payload>, next: nat, c: Caller) {
    && c.p < |log| && log[c.p].Intention?
    && (!c.phase.Begin? ==> c.position <= next && NoDecisionBefore(log, c.p, c.position))
    && PhaseInv(log, c)
  }

  /** What holds of the log and the shared state. */
  ghost predicate Good(log: seq<Payload>, shared: ReplayState) {
    Decisions(log) && Near(log, shared) && LoggedBelow(log, shared.next)
  }

  ghost predicate Inv(s: State) {
    && Good(s.log, s.shared)
    && forall id :: id in s.callers ==> CallerInv(s.log, s.shared.next, s.callers[id])
  }

  predicate Init(s: State) {
    s.log == [] && s.shared == Start && s.callers == map[]
  }

  // ---- the log grows ----

  lemma NonDecisionKeepsDecisions(log: seq<Payload>, e: Payload)
    requires Decisions(log) && !e.IsDecision()
    ensures Decisions(log + [e])
  {
    hide HasCause, Output;
    forall q | 0 <= q < |log| && log[q].IsDecision()
      ensures DrainsHeld(log + [e], log[q]) || HasCause(log + [e], |log| + 1, log[q])
    {
      ReasonCarries(log, e, log[q]);
    }
  }

  /** Why a decision is in the log stays true as the log grows. */
  lemma ReasonCarries(log: seq<Payload>, e: Payload, d: Payload)
    requires DrainsHeld(log, d) || HasCause(log, |log|, d)
    ensures DrainsHeld(log + [e], d) || HasCause(log + [e], |log + [e]|, d)
  {
    hide HasCause, Output;
    if HasCause(log, |log|, d) {
      CauseCarries(log, e, d);
    } else {
      OutputOfPrefix(log, [e], d.aborted);
    }
  }

  lemma CauseCarries(log: seq<Payload>, e: Payload, d: Payload)
    requires HasCause(log, |log|, d)
    ensures HasCause(log + [e], |log + [e]|, d)
  {
    hide Output;
    var k :| 0 <= k < |log| && Output(log, k) == Some(d);
    OutputOfPrefix(log, [e], k);
  }

  /** A drain abort of a held intention or a caused decision, of an intention in the log. */
  lemma DecisionKeepsDecisions(log: seq<Payload>, d: Payload)
    requires Decisions(log) && d.IsDecision() && 0 <= DecisionId(d) < |log| && log[DecisionId(d)].Intention?
    requires DrainsHeld(log, d) || HasCause(log, |log|, d)
    ensures Decisions(log + [d])
  {
    hide HasCause, DrainsHeld;
    forall q | 0 <= q < |log + [d]| && (log + [d])[q].IsDecision()
      ensures DrainsHeld(log + [d], (log + [d])[q]) || HasCause(log + [d], |log + [d]|, (log + [d])[q])
    {
      ReasonCarries(log, d, (log + [d])[q]);
    }
  }

  lemma LoggedAtAppend(log: seq<Payload>, e: Payload, p: nat)
    requires LoggedAt(log, p)
    ensures LoggedAt(log + [e], p)
  {
    hide Output;
    OutputOfPrefix(log, [e], p);
  }

  lemma LoggedBelowAppend(log: seq<Payload>, e: Payload, n: nat)
    requires LoggedBelow(log, n)
    ensures LoggedBelow(log + [e], n)
  {
    hide LoggedAt;
    forall p: nat | p < n
      ensures LoggedAt(log + [e], p)
    {
      LoggedAtAppend(log, e, p);
    }
  }

  lemma NoDecisionBeforeAppend(log: seq<Payload>, e: Payload, p: nat, n: nat)
    requires NoDecisionBefore(log, p, n)
    ensures NoDecisionBefore(log + [e], p, n)
  {
  }

  /** A returned outcome stays the first decision, whatever is logged later. */
  lemma FirstDecisionPersists(log: seq<Payload>, e: Payload, p: nat, outcome: Outcome)
    requires FirstDecision(log, p, outcome)
    ensures FirstDecision(log + [e], p, outcome)
  {
    var q :| p < q < |log| && LoggedOutcome(log[q], p) == Some(outcome) && NoDecisionBefore(log, p, q);
    NoDecisionBeforeAppend(log, e, p, q);
    assert (log + [e])[q] == log[q];
  }

  lemma PhaseAppend(log: seq<Payload>, e: Payload, c: Caller)
    requires c.p < |log| && PhaseInv(log, c)
    ensures PhaseInv(log + [e], c)
  {
    hide Near, Output, FirstDecision, DrainLogged, LoggedAt;
    match c.phase
    case DrainAppend => OutputOfPrefix(log, [e], c.p);
    case DrainClear => DrainLoggedAppend(log, e, c.p);
    case AppendOutput(_, _, next, _, _) => NearAppend(log, [e], next); OutputOfPrefix(log, [e], c.position);
    case Install(_, _, next, _) => NearAppend(log, [e], next); LoggedAtAppend(log, e, c.position);
    case Returned(outcome) => FirstDecisionPersists(log, e, c.p, outcome);
    case _ =>
  }

  lemma DrainLoggedAppend(log: seq<Payload>, e: Payload, p: nat)
    requires DrainLogged(log, p)
    ensures DrainLogged(log + [e], p)
  {
    var q :| 0 <= q < |log| && log[q] == Abort(p, DRAIN_REASON);
    assert (log + [e])[q] == log[q];
  }

  lemma CallerAppend(log: seq<Payload>, e: Payload, next: nat, c: Caller)
    requires CallerInv(log, next, c)
    ensures CallerInv(log + [e], next, c)
  {
    hide PhaseInv;
    PhaseAppend(log, e, c);
  }

  /** After its drain abort a caller leaves its intention not pending. */
  lemma DrainClears(log: seq<Payload>, shared: ReplayState, c: Caller)
    requires c.phase.DrainClear?
    ensures var m := Move(log, shared, c);
            && m.shared.pending != Some(c.p) && m.shared.policy == shared.policy && m.shared.next == shared.next
            && (shared.pending != Some(c.p) ==> m.shared == shared)
  {
    hide ProcessEntry;
  }

  /** Every caller keeps its invariant when the log grows by at most one entry and the cursor only moves forward. */
  lemma CallersCarry(s: State, log: seq<Payload>, next: nat, id: nat)
    requires Inv(s) && id in s.callers && next >= s.shared.next
    requires log == s.log || (|log| > 0 && log == s.log + [log[|log| - 1]])
    ensures CallerInv(log, next, s.callers[id])
  {
    hide PhaseInv, Decisions, Near, NoDecisionBefore;
    if log != s.log {
      CallerAppend(s.log, log[|log| - 1], s.shared.next, s.callers[id]);
    }
  }

  // ---- one move ----

  /** An intention with no decision anywhere in a log the cursor has read is one the fold held. */
  lemma DrainedIsHeld(log: seq<Payload>, p: nat, next: nat)
    requires p < |log| && log[p].Intention? && LoggedBelow(log, next) && p < next && NoDecisionBefore(log, p, |log|)
    ensures Output(log, p).None?
  {
    hide ProcessEntry;
    assert LoggedAt(log, p);
    if Output(log, p).Some? {
      ProcessOutcome(Fold(log, p).value, log[p], p);
    }
  }

  ghost predicate GoodMove(log: seq<Payload>, shared: ReplayState, m: Moved) {
    && (m.log == log || (|m.log| > 0 && m.log == log + [m.log[|m.log| - 1]]))
    && m.shared.next >= shared.next
    && Good(m.log, m.shared)
    && CallerInv(m.log, m.shared.next, m.caller)
  }

  /** Leaving the entry at the caller's position, which the cursor has passed. */
  lemma FinishKeepsInv(log: seq<Payload>, next: nat, c: Caller, tail: nat, batch: seq<Payload>)
    requires NamesEarlier(log) && c.p < |log| && log[c.p].Intention? && NoDecisionBefore(log, c.p, c.position)
    requires Holds(log, c.position, tail, batch) && c.position < next
    ensures CallerInv(log, next, Finish(c, tail, batch))
  {
    assert batch[0] == log[c.position];
    if LoggedOutcome(batch[0], c.p).Some? {
      assert log[c.position].IsDecision() && DecisionId(log[c.position]) == c.p;
    } else {
      assert NoDecisionBefore(log, c.p, c.position + 1);
      assert |batch| > 1 ==> batch[1..] == log[c.position + 1..c.position + |batch|];
    }
  }

  lemma MoveProcess(log: seq<Payload>, shared: ReplayState, c: Caller)
    requires c.phase.Process? && Good(log, shared) && CallerInv(log, shared.next, c)
    ensures GoodMove(log, shared, Move(log, shared, c))
  {
    hide ProcessEntry, Near, NoDecisionBefore, FirstDecision, Output, HasCause, DrainsHeld;
    var tail, batch := c.phase.tail, c.phase.batch;
    assert batch[0] == log[c.position];
    if c.position < shared.next {
      FinishKeepsInv(log, shared.next, c, tail, batch);
    } else {
      var r := ProcessEntry(shared, batch[0], c.position);
      if r.Accepted? {
        ConsumeNear(log, shared);
        if r.output.None? {
          FinishKeepsInv(log, c.position + 1, c, tail, batch);
        }
      }
    }
  }

  lemma MoveAppend(log: seq<Payload>, shared: ReplayState, c: Caller)
    requires c.phase.AppendOutput? && Good(log, shared) && CallerInv(log, shared.next, c)
    ensures GoodMove(log, shared, Move(log, shared, c))
  {
    hide ProcessEntry, Near, NoDecisionBefore, FirstDecision, Output, DrainsHeld;
    var d := c.phase.output;
    OutputNames(log, c.position);
    DecisionKeepsDecisions(log, d);
    NearAppend(log, [d], shared);
    LoggedBelowAppend(log, d, shared.next);
    OutputOfPrefix(log, [d], c.position);
    assert d in log + [d];
    CallerAppend(log, d, shared.next, c);
  }

  lemma MoveInstall(log: seq<Payload>, shared: ReplayState, c: Caller)
    requires c.phase.Install? && Good(log, shared) && CallerInv(log, shared.next, c)
    ensures GoodMove(log, shared, Move(log, shared, c))
  {
    hide ProcessEntry, Near, NoDecisionBefore, FirstDecision, Output, HasCause, DrainsHeld;
    FinishKeepsInv(log, if shared.next == c.position then c.position + 1 else shared.next, c, c.phase.tail,
        c.phase.batch);
  }

  lemma MoveDrain(log: seq<Payload>, shared: ReplayState, c: Caller)
    requires (c.phase.DrainAppend? || c.phase.DrainClear?) && Good(log, shared) && CallerInv(log, shared.next, c)
    ensures GoodMove(log, shared, Move(log, shared, c))
  {
    hide ProcessEntry, Near, NoDecisionBefore, FirstDecision, Output, HasCause;
    if c.phase.DrainAppend? {
      var d := Abort(c.p, DRAIN_REASON);
      DecisionKeepsDecisions(log, d);
      NearAppend(log, [d], shared);
      LoggedBelowAppend(log, d, shared.next);
      CallerAppend(log, d, shared.next, c);
      assert (log + [d])[|log|] == d;
    } else {
      var q :| 0 <= q < |log| && log[q] == Abort(c.p, DRAIN_REASON);
      ClearNear(log, shared, c.p, q);
    }
  }

  lemma MoveOther(log: seq<Payload>, shared: ReplayState, c: Caller)
    requires c.phase.Begin? || c.phase.CheckTail? || c.phase.ReadBatch? || c.phase.Returned? || c.phase.Failed?
    requires Good(log, shared) && CallerInv(log, shared.next, c)
    ensures GoodMove(log, shared, Move(log, shared, c))
  {
    hide ProcessEntry, Fold, FirstDecision, Output, HasCause, DrainsHeld;
    if c.phase.Begin? {
      NoneBeforeOwnIntention(log, c.p, if shared.next < c.p then shared.next else c.p);
    } else if c.phase.CheckTail? && c.position >= |log| {
      DrainedIsHeld(log, c.p, shared.next);
    }
  }

  lemma NoneBeforeOwnIntention(log: seq<Payload>, p: nat, n: nat)
    requires NamesEarlier(log) && n <= p < |log|
    ensures NoDecisionBefore(log, p, n)
  {
    forall q | 0 <= q < n
      ensures LoggedOutcome(log[q], p).None?
    {
      if log[q].IsDecision() {
        assert DecisionId(log[q]) < q;
      }
    }
  }

  lemma MoveKeepsInv(log: seq<Payload>, shared: ReplayState, c: Caller)
    requires Good(log, shared) && CallerInv(log, shared.next, c)
    ensures GoodMove(log, shared, Move(log, shared, c))
  {
    hide *;
    match c.phase
    case Process(_, _) => MoveProcess(log, shared, c);
    case AppendOutput(_, _, _, _, _) => MoveAppend(log, shared, c);
    case Install(_, _, _, _) => MoveInstall(log, shared, c);
    case DrainAppend => MoveDrain(log, shared, c);
    case DrainClear => MoveDrain(log, shared, c);
    case _ => MoveOther(log, shared, c);
  }

  lemma StepKeepsInv(s: State, step: Step)
    requires Inv(s) && Enabled(s, step)
    ensures Inv(Next(s, step))
  {
    hide Decisions, Near, CallerInv, Move, NoDecisionBefore, LoggedAt;
    var s' := Next(s, step);
    if step.Advance? {
      MoveKeepsInv(s.log, s.shared, s.callers[step.id]);
    } else {
      var e := if step.External? then step.entry else Intention(step.body, step.constraint);
      assert s'.log == s.log + [e];
      NonDecisionKeepsDecisions(s.log, e);
      NearAppend(s.log, [e], s.shared);
      LoggedBelowAppend(s.log, e, s.shared.next);
      if step.Submit? {
        NewCaller(s.log, e, s.shared.next);
      }
    }
    forall id | id in s'.callers
      ensures CallerInv(s'.log, s'.shared.next, s'.callers[id])
    {
      if id in s.callers && s'.callers[id] == s.callers[id] {
        CallersCarry(s, s'.log, s'.shared.next, id);
      }
    }
  }

  lemma NewCaller(log: seq<Payload>, e: Payload, next: nat)
    requires e.Intention?
    ensures CallerInv(log + [e], next, Caller(|log|, 0, Begin))
  {
  }

  // ---- runs ----

  ghost predicate IsRun(states: seq<State>, steps: seq<Step>) {
    IsPath(states, steps) && Init(states[0])
  }

  /** Steps from any first state. */
  ghost predicate IsPath(states: seq<State>, steps: seq<Step>) {
    && |states| == |steps| + 1
    && forall i {:trigger steps[i]} :: 0 <= i < |steps| ==>
        Enabled(states[i], steps[i]) && states[i + 1] == Next(states[i], steps[i])
  }

  lemma {:induction false} PathKeepsInv(states: seq<State>, steps: seq<Step>, n: nat)
    requires IsPath(states, steps) && Inv(states[0]) && n <= |steps|
    ensures Inv(states[n])
  {
    hide Next, Inv, Enabled;
    if n > 0 {
      PathKeepsInv(states, steps, n - 1);
      assert steps[n - 1] == steps[n - 1];
      StepKeepsInv(states[n - 1], steps[n - 1]);
    }
  }

  lemma RunKeepsInv(states: seq<State>, steps: seq<Step>, n: nat)
    requires IsRun(states, steps) && n <= |steps|
    ensures Inv(states[n])
  {
    hide Next, Near, Decisions, Enabled;
    EmptyIsGood();
    PathKeepsInv(states, steps, n);
  }

  lemma EmptyIsGood()
    ensures Decisions([]) && Near([], Start)
  {
  }

  /** In every reachable state each logged decision names a strictly earlier intention. */
  lemma DecisionsNameEarlierIntentions(states: seq<State>, steps: seq<Step>, n: nat)
    requires IsRun(states, steps) && n <= |steps|
    ensures NamesEarlier(states[n].log)
  {
    hide Next, IsRun, Near, NamesEarlier;
    RunKeepsInv(states, steps, n);
  }

  lemma {:induction false} CallerStays(states: seq<State>, steps: seq<Step>, n: nat, n': nat, id: nat)
    requires IsRun(states, steps) && n <= n' <= |steps| && id in states[n].callers
        && states[n].callers[id].phase.Returned?
    ensures id in states[n'].callers && states[n'].callers[id] == states[n].callers[id]
    decreases n'
  {
    if n < n' {
      CallerStays(states, steps, n, n' - 1, id);
      assert steps[n' - 1] == steps[n' - 1];
    }
  }

  /** What `commit_intention` returned is, then and ever after, the first decision logged for its own intention. */
  lemma ReturnsFirstDecision(states: seq<State>, steps: seq<Step>, n: nat, n': nat, id: nat)
    requires IsRun(states, steps) && n <= n' <= |steps| && id in states[n].callers
        && states[n].callers[id].phase.Returned?
    ensures FirstDecision(states[n'].log, states[n].callers[id].p, states[n].callers[id].phase.outcome)
  {
    hide Next, IsRun, Near, Decisions, FirstDecision;
    CallerStays(states, steps, n, n', id);
    RunKeepsInv(states, steps, n');
  }

  /** Whenever the cursor has reached the end of the log, the shared state is exactly the fold of the log. */
  lemma CaughtUpIsFold(states: seq<State>, steps: seq<Step>, n: nat)
    requires IsRun(states, steps) && n <= |steps| && states[n].shared.next == |states[n].log|
    ensures Fold(states[n].log, |states[n].log|) == Some(states[n].shared)
  {
    hide Next, IsRun, Decisions, CallerInv, Fold;
    RunKeepsInv(states, steps, n);
  }

  // ---- conflicts come only from drains ----

  /** Once the fold has decided p it never holds p again. */
  lemma {:induction false} DecidedStaysClosed(log: seq<Payload>, k: nat, n: nat, p: int)
    requires k < n <= |log| && Fold(log, n).Some? && NamesEarlier(log)
    requires Output(log, k).Some? && Output(log, k).value.IsDecision() && DecisionId(Output(log, k).value) == p
    ensures Fold(log, n).value.pending != Some(p)
    decreases n
  {
    hide ProcessEntry, NamesEarlier;
    FoldDefined(log, k, n);
    PendingIsOpen(log, k);
    ProcessOutcome(Fold(log, k).value, log[k], k);
    if n == k + 1 {
      PendingIsOpen(log, n - 1);
    } else {
      DecidedStaysClosed(log, k, n - 1, p);
      ProcessPending(Fold(log, n - 1).value, log[n - 1], n - 1);
    }
  }

  /** The fold decides each intention at most once. */
  lemma FoldDecidesOnce(log: seq<Payload>, k: nat, k': nat)
    requires k < k' < |log| && NamesEarlier(log)
    requires Output(log, k).Some? && Output(log, k').Some? && Output(log, k).value.IsDecision()
        && Output(log, k').value.IsDecision()
    ensures DecisionId(Output(log, k).value) != DecisionId(Output(log, k').value)
  {
    hide ProcessEntry, NamesEarlier;
    DecidedStaysClosed(log, k, k', DecisionId(Output(log, k).value));
    ProcessOutcome(Fold(log, k').value, log[k'], k');
    OutputNames(log, k);
  }

  lemma CausesAgree(log: seq<Payload>, d: Payload, d': Payload)
    requires NamesEarlier(log) && HasCause(log, |log|, d) && HasCause(log, |log|, d')
    requires d.IsDecision() && d'.IsDecision() && DecisionId(d) == DecisionId(d')
    ensures d == d'
  {
    hide Output, NamesEarlier;
    var k :| 0 <= k < |log| && Output(log, k) == Some(d);
    var k' :| 0 <= k' < |log| && Output(log, k') == Some(d');
    if k < k' {
      FoldDecidesOnce(log, k, k');
    } else if k' < k {
      FoldDecidesOnce(log, k', k);
    }
  }

  /** Racing callers may log one intention's decision several times, but two that differ include a drain abort. */
  lemma ConflictsComeFromDrains(states: seq<State>, steps: seq<Step>, n: nat, q: nat, q': nat)
    requires IsRun(states, steps) && n <= |steps| && q < |states[n].log| && q' < |states[n].log|
    requires var log := states[n].log;
        log[q].IsDecision() && log[q'].IsDecision()
        && DecisionId(log[q]) == DecisionId(log[q'])
    ensures var log := states[n].log; log[q] == log[q'] || IsDrain(log[q]) || IsDrain(log[q'])
  {
    hide Next, Enabled, Near, NamesEarlier, CallerInv, HasCause;
    RunKeepsInv(states, steps, n);
    var log := states[n].log;
    if !DrainsHeld(log, log[q]) && !DrainsHeld(log, log[q']) {
      CausesAgree(log, log[q], log[q']);
    }
  }

  // ---- the policy in force decides whether there can be a conflict ----

  lemma OnlyPolicyDecision(log: seq<Payload>, p: nat, q: nat)
    requires Decisions(log) && p < |log| && log[p].Intention? && q < |log| && log[q].Decides(p)
    requires Output(log, p).Some?
    ensures log[q] == Output(log, p).value
  {
    hide ProcessEntry, NamesEarlier, HasCause;
    ProcessOutcome(Fold(log, p).value, log[p], p);
    assert HasCause(log, |log|, log[q]);
    NewCauseAnywhere(log, p);
    CausesAgree(log, log[q], Output(log, p).value);
  }

  lemma NewCauseAnywhere(log: seq<Payload>, k: nat)
    requires k < |log| && Output(log, k).Some?
    ensures HasCause(log, |log|, Output(log, k).value)
  {
    hide Output;
  }

  /** When the policy in force at p decides without waiting for a vote, every decision ever logged for p, by
      any number of racing callers, is that one, and no caller drains p: there is no conflict. */
  lemma PolicyExcludesConflict(states: seq<State>, steps: seq<Step>, n: nat, p: nat)
    requires IsRun(states, steps) && n <= |steps| && p < |states[n].log| && states[n].log[p].Intention?
    requires Fold(states[n].log, p).Some? && !Held(states[n].log, p)
    ensures var log := states[n].log;
            && AtOnce(log, p).Some?
            && (forall q :: 0 <= q < |log| && log[q].Decides(p) ==> log[q] == AtOnce(log, p).value)
            && (forall id :: id in states[n].callers && states[n].callers[id].p == p ==>
                  !states[n].callers[id].phase.DrainAppend?)
  {
    hide Next, Enabled, Near, HasCause, DrainsHeld, NamesEarlier, Fold, AtOnce, Held, ProcessEntry;
    RunKeepsInv(states, steps, n);
    var log := states[n].log;
    HeldIff(log, p);
    DecisionAtIntention(log, p);
    forall q | 0 <= q < |log| && log[q].Decides(p)
      ensures log[q] == Output(log, p).value
    {
      OnlyPolicyDecision(log, p, q);
    }
  }
}

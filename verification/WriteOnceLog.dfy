/** Appending to a log kept in a write-once space, as interleaved steps of many appends over
    many bus handles. Every `await` of the retry loop is a step boundary. The state is that of
    one bus: buses share nothing but the capacity of the hint cache, and a hint may be evicted
    at any step. Looking for the tail is an unordered, non-atomic scan: `view` holds at least what
    was written when it began and at most what is written when it ends. */
module WriteOnceLog {
  import opened Bus
  import opened WriteOnceSpace

  const TAIL_WINDOW_SIZE := 1

  /** A stored entry: its header position, its payload and the append that wrote it. */
  datatype Cell = Cell(position: nat, payload: Payload, author: nat)

  datatype Phase =
    | Writing(position: nat)       // about to write at `position`
    | Conflicted(seen: set<nat>)   // write refused while `seen` were written, looking for the tail
    | Stored(at: nat)              // written, hint not yet updated
    | Done(result: nat)            // returned `result`
    | Failed                       // returned an error

  /** One call of `append`. The counters and `startTail` (length of the log when the call began)
      only record what happened; no step depends on them. */
  datatype Append = Append(handle: nat, payload: Payload, phase: Phase,
                           startTail: nat, failures: nat, conflicts: nat)

  /** A `poll` that has found the tail and not yet stored it as a hint. */
  datatype Poll = Poll(handle: nat, end: nat)

  datatype State = State(space: map<nat, Cell>, hints: map<nat, nat>,
                         appends: map<nat, Append>, polls: map<nat, Poll>)
  {
    function Length(): nat { |space.Keys| }
  }

  datatype Step =
    | Start(op: nat, handle: nat, payload: Payload)
    | WriteSucceeds(op: nat)
    | WriteRefused(op: nat)               // AddressAlreadyExists
    | WriteConflicts(op: nat)             // TransactionConflict
    | WriteFails(op: nat, stored: bool)   // timeout or backend error, which may have stored
    | FindTail(op: nat, view: set<nat>, end: nat)
    | TailFails(op: nat)
    | Publish(op: nat)
    | PollTail(poll: nat, handle: nat, view: set<nat>, end: nat)
    | PollPublish(poll: nat)
    | Evict(handle: nat)

  ghost predicate Init(s: State) {
    s == State(map[], map[], map[], map[])
  }

  predicate IsWriting(s: State, op: nat) {
    op in s.appends && s.appends[op].phase.Writing?
  }

  predicate FindsFree(s: State, op: nat)
    requires IsWriting(s, op)
  {
    s.appends[op].phase.position !in s.space
  }

  ghost predicate Enabled(s: State, step: Step) {
    match step
    case Start(op, _, _) => op !in s.appends
    case WriteSucceeds(op) => IsWriting(s, op) && FindsFree(s, op)
    case WriteRefused(op) => IsWriting(s, op) && !FindsFree(s, op)
    case WriteConflicts(op) => IsWriting(s, op)
    case WriteFails(op, stored) => IsWriting(s, op) && (stored ==> FindsFree(s, op))
    case FindTail(op, view, end) =>
      && op in s.appends && s.appends[op].phase.Conflicted?
      && s.appends[op].phase.seen <= view <= s.space.Keys && IsNonContiguousTail(view, end)
    case TailFails(op) => op in s.appends && s.appends[op].phase.Conflicted?
    case Publish(op) => op in s.appends && s.appends[op].phase.Stored?
    case PollTail(poll, _, view, end) => poll !in s.polls && view <= s.space.Keys && IsNonContiguousTail(view, end)
    case PollPublish(poll) => poll in s.polls
    case Evict(_) => true
  }

  function SetPhase(s: State, op: nat, p: Phase): State
    requires op in s.appends
  {
    s.(appends := s.appends[op := s.appends[op].(phase := p)])
  }

  /** Put the entry of append `op` at the address it is about to write. */
  function Put(s: State, op: nat): State
    requires IsWriting(s, op)
  {
    var p := s.appends[op].phase.position;
    s.(space := s.space[p := Cell(p, s.appends[op].payload, op)])
  }

  function TailPosition(addrs: set<nat>, end: nat): nat {
    FirstGap(addrs, WindowStart(end, TAIL_WINDOW_SIZE), end)
  }

  function Refuse(s: State, op: nat, conflict: nat): State
    requires op in s.appends
  {
    var a := s.appends[op];
    s.(appends := s.appends[op :=
        a.(phase := Conflicted(s.space.Keys), failures := a.failures + 1, conflicts := a.conflicts + conflict)])
  }

  ghost function Apply(s: State, step: Step): State
    requires Enabled(s, step)
  {
    match step
    case Start(op, handle, payload) =>
      var hint := if handle in s.hints then s.hints[handle] else 0;
      s.(hints := s.hints[handle := hint],
         appends := s.appends[op := Append(handle, payload, Writing(hint), s.Length(), 0, 0)])
    case WriteSucceeds(op) => SetPhase(Put(s, op), op, Stored(s.appends[op].phase.position))
    case WriteRefused(op) => Refuse(s, op, 0)
    case WriteConflicts(op) => Refuse(s, op, 1)
    case WriteFails(op, stored) => SetPhase(if stored then Put(s, op) else s, op, Failed)
    case FindTail(op, view, end) => SetPhase(s, op, Writing(TailPosition(view, end)))
    case TailFails(op) => SetPhase(s, op, Failed)
    case Publish(op) =>
      var a := s.appends[op];
      SetPhase(s.(hints := s.hints[a.handle := a.phase.at + 1]), op, Done(a.phase.at))
    case PollTail(poll, handle, view, end) =>
      s.(polls := s.polls[poll := Poll(handle, TailPosition(view, end))])
    case PollPublish(poll) =>
      s.(hints := s.hints[s.polls[poll].handle := s.polls[poll].end], polls := s.polls - {poll})
    case Evict(handle) => s.(hints := s.hints - {handle})
  }

  /** A run: the initial state followed by the states its steps lead to. */
  ghost predicate IsRun(states: seq<State>, steps: seq<Step>) {
    && |states| == |steps| + 1
    && Init(states[0])
    && forall i {:trigger steps[i]} :: 0 <= i < |steps| ==> IsStep(states[i], steps[i], states[i + 1])
  }

  ghost predicate IsStep(s: State, step: Step, s': State) {
    Enabled(s, step) && s' == Apply(s, step)
  }

  // ---- the invariant ----

  /** Written addresses are exactly [0, n), and each header agrees with its slot. */
  ghost predicate Contiguous(s: State) {
    && IsPrefix(s.space.Keys, s.Length())
    && (forall a :: a in s.space ==> s.space[a].position == a)
  }

  /** `addrs` is exactly [0, n). */
  ghost predicate IsPrefix(addrs: set<nat>, n: nat) {
    forall a: nat :: a in addrs <==> a < n
  }

  lemma GrowPrefix(addrs: set<nat>, n: nat)
    requires IsPrefix(addrs, n) && n == |addrs|
    ensures |addrs + {n}| == n + 1 && IsPrefix(addrs + {n}, n + 1)
  {
    assert n !in addrs;
  }

  predicate AuthorOf(s: State, a: nat, op: nat) {
    a in s.space && s.space[a].author == op
  }

  /** `f` failed attempts are explained by one stale hint, `c` transaction conflicts and the
      entries that filled positions [start, upTo). */
  predicate Explained(a: Append, upTo: nat) {
    a.startTail <= upTo && a.failures <= 1 + a.conflicts + (upTo - a.startTail)
  }

  ghost predicate AppendInv(s: State, op: nat)
    requires op in s.appends
  {
    var a := s.appends[op];
    && a.startTail <= s.Length()
    && match a.phase
       case Writing(p) => p <= s.Length() && (a.failures == 0 || Explained(a, p))
       case Conflicted(seen) => seen <= s.space.Keys && IsPrefix(seen, |seen|) && Explained(a, |seen|)
       case Stored(p) => AuthorOf(s, p, op) && Explained(a, p)
       case Done(p) => AuthorOf(s, p, op) && Explained(a, p)
       case Failed => a.failures == 0 || Explained(a, s.Length())
  }

  /** A stored entry belongs to an append which is past its write, carries that append's
      payload, lies at or after the log length the append started from, and the append's failed
      attempts are explained by what lies before it. */
  predicate CellInv(s: State, a: nat)
    requires a in s.space
  {
    var op := s.space[a].author;
    && op in s.appends
    && s.appends[op].payload == s.space[a].payload
    && s.appends[op].startTail <= a
    && (s.appends[op].phase == Stored(a) || s.appends[op].phase == Done(a) || s.appends[op].phase == Failed)
    && (s.appends[op].failures == 0 || Explained(s.appends[op], a))
  }

  ghost predicate OneCellPerAppend(s: State) {
    forall a, b :: a in s.space && b in s.space && s.space[a].author == s.space[b].author ==> a == b
  }

  ghost predicate Inv(s: State) {
    && Contiguous(s)
    && (forall h :: h in s.hints ==> s.hints[h] <= s.Length())
    && (forall p :: p in s.polls ==> s.polls[p].end <= s.Length())
    && (forall op :: op in s.appends ==> AppendInv(s, op))
    && (forall a :: a in s.space ==> CellInv(s, a))
    && OneCellPerAppend(s)
  }

  /** With a contiguous space the tail window of one address finds the first free address. */
  lemma TailIsLength(s: State, end: nat)
    requires Contiguous(s) && IsNonContiguousTail(s.space.Keys, end)
    ensures TailPosition(s.space.Keys, end) == end == s.Length()
  {
    assert end in s.space ==> end < end;
    assert 0 < end ==> end - 1 in s.space;
    WindowTailExact(s.space.Keys, TAIL_WINDOW_SIZE, end, s.Length());
  }

  /** A tail found by an unordered scan, which sees all that was written when it began and nothing
      unwritten when it ends, lies between the log's lengths at those moments. */
  lemma ScannedTail(s: State, seen: set<nat>, view: set<nat>, end: nat)
    requires Contiguous(s) && IsPrefix(seen, |seen|) && seen <= view <= s.space.Keys && IsNonContiguousTail(view, end)
    ensures |seen| <= TailPosition(view, end) == end <= s.Length()
  {
    assert 0 < end ==> end - 1 in s.space;
    assert 0 < |seen| ==> |seen| - 1 in seen;
  }

  lemma PutAppends(s: State, op: nat)
    requires Inv(s) && IsWriting(s, op) && FindsFree(s, op)
    ensures s.appends[op].phase.position == s.Length() >= s.appends[op].startTail
    ensures Put(s, op).Length() == s.Length() + 1
    ensures Contiguous(Put(s, op))
  {
    hide CellInv, OneCellPerAppend, Explained, IsPrefix;
    FreeIsEnd(s, op);
    GrowPrefix(s.space.Keys, s.Length());
    assert Put(s, op).space.Keys == s.space.Keys + {s.Length()};
  }

  /** A free address at or below the length of a contiguous log is its end. */
  lemma FreeIsEnd(s: State, op: nat)
    requires Inv(s) && IsWriting(s, op) && FindsFree(s, op)
    ensures s.appends[op].phase.position == s.Length() >= s.appends[op].startTail
  {
    hide CellInv, OneCellPerAppend, Explained;
    assert AppendInv(s, op);
  }

  lemma StoringKeepsInv(s: State, op: nat, phase: Phase)
    requires Inv(s) && IsWriting(s, op) && FindsFree(s, op)
    requires phase == Stored(s.appends[op].phase.position) || phase == Failed
    ensures Inv(SetPhase(Put(s, op), op, phase))
  {
    hide AppendInv, CellInv;
    PutAppends(s, op);
    var s' := SetPhase(Put(s, op), op, phase);
    forall o | o in s'.appends ensures AppendInv(s', o) {
      StoringKeepsAppend(s, op, phase, o);
    }
    forall a | a in s'.space ensures CellInv(s', a) && (a in s.space ==> s.space[a].author != op) {
      StoringKeepsCell(s, op, phase, a);
    }
  }

  lemma StoringKeepsCell(s: State, op: nat, phase: Phase, a: nat)
    requires Inv(s) && IsWriting(s, op) && FindsFree(s, op)
    requires phase == Stored(s.appends[op].phase.position) || phase == Failed
    requires a in SetPhase(Put(s, op), op, phase).space
    ensures CellInv(SetPhase(Put(s, op), op, phase), a) && (a in s.space ==> s.space[a].author != op)
  {
    hide Contiguous, OneCellPerAppend, IsPrefix, Explained;
    PutAppends(s, op);
    assert AppendInv(s, op);
    var author := SetPhase(Put(s, op), op, phase).space[a].author;
    if a in s.space {
      assert CellInv(s, a);
    }
    SameCounts(s.appends[author], phase);
  }

  lemma SameCounts(a: Append, phase: Phase)
    ensures forall upTo: nat :: Explained(a.(phase := phase), upTo) <==> Explained(a, upTo)
  {
  }

  lemma StoringKeepsAppend(s: State, op: nat, phase: Phase, o: nat)
    requires Inv(s) && IsWriting(s, op) && FindsFree(s, op) && o in s.appends
    requires phase == Stored(s.appends[op].phase.position) || phase == Failed
    ensures AppendInv(SetPhase(Put(s, op), op, phase), o)
  {
    PutAppends(s, op);
    assert AppendInv(s, op) && AppendInv(s, o);
  }

  /** A step that stores nothing and touches at most append `op`. */
  lemma QuietStepKeepsInv(s: State, s': State, op: nat)
    requires Inv(s) && s'.space == s.space
    requires forall h :: h in s'.hints ==> s'.hints[h] <= s.Length()
    requires forall p :: p in s'.polls ==> s'.polls[p].end <= s.Length()
    requires s.appends.Keys <= s'.appends.Keys <= s.appends.Keys + {op}
    requires forall o :: o in s.appends && o != op ==> s'.appends[o] == s.appends[o]
    requires op in s'.appends ==> AppendInv(s', op)
    requires op in s.appends ==> KeepsOutcome(s.appends[op], s'.appends[op])
    ensures Inv(s')
  {
    hide AppendInv, CellInv, Contiguous, OneCellPerAppend, KeepsOutcome;
    SpaceCarries(s, s');
    forall o | o in s'.appends ensures AppendInv(s', o) {
      if o != op {
        AppendCarries(s, s', o);
      }
    }
    forall a | a in s'.space ensures CellInv(s', a) {
      CellCarries(s, s', a, op);
    }
  }

  lemma SpaceCarries(s: State, s': State)
    requires s'.space == s.space && Contiguous(s) && OneCellPerAppend(s)
    ensures s'.Length() == s.Length() && Contiguous(s') && OneCellPerAppend(s')
  {
  }

  lemma AppendCarries(s: State, s': State, o: nat)
    requires s'.space == s.space && o in s.appends && o in s'.appends && s'.appends[o] == s.appends[o]
    requires AppendInv(s, o)
    ensures AppendInv(s', o)
  {
    hide Explained, IsPrefix;
  }

  /** A cell survives when its author keeps its payload, its start and its outcome. */
  lemma CellCarries(s: State, s': State, a: nat, op: nat)
    requires s'.space == s.space && a in s.space && s.appends.Keys <= s'.appends.Keys
    requires forall o :: o in s.appends && o != op ==> s'.appends[o] == s.appends[o]
    requires op in s.appends ==> KeepsOutcome(s.appends[op], s'.appends[op])
    requires CellInv(s, a)
    ensures CellInv(s', a)
  {
    var author := s.space[a].author;
    assert author in s'.appends;
  }

  /** Past its write an append changes nothing but Stored to Done. */
  predicate KeepsOutcome(a: Append, a': Append) {
    && (a.phase.Stored? ==> a' == a || a' == a.(phase := Done(a.phase.at)))
    && (a.phase.Done? || a.phase.Failed? ==> a' == a)
  }

  predicate Stores(step: Step) {
    step.WriteSucceeds? || (step.WriteFails? && step.stored)
  }

  lemma QuietAppendStep(s: State, step: Step, s': State)
    requires Inv(s) && IsStep(s, step, s') && !Stores(step) && !HintStep(step)
    ensures Inv(s')
  {
    hide CellInv, OneCellPerAppend, IsPrefix, AppendInv;
    QuietStepKeepsAppend(s, step, s');
    QuietStepKeepsInv(s, s', step.op);
  }

  lemma QuietStepKeepsAppend(s: State, step: Step, s': State)
    requires Inv(s) && IsStep(s, step, s') && !Stores(step) && !HintStep(step)
    ensures step.op in s'.appends && AppendInv(s', step.op)
    ensures step.Publish? ==> s.appends[step.op].phase.at < s.Length()
  {
    hide CellInv, OneCellPerAppend;
    if step.FindTail? {
      ScannedTail(s, s.appends[step.op].phase.seen, step.view, step.end);
    }
    if step.op in s.appends {
      assert AppendInv(s, step.op);
    }
    if step.TailFails? {
      SeenIsShorter(s.appends[step.op].phase.seen, s.space.Keys);
    }
  }

  lemma {:induction false} SeenIsShorter(seen: set<nat>, all: set<nat>)
    requires seen <= all
    ensures |seen| <= |all|
  {
    assert all == seen + (all - seen);
  }

  predicate HintStep(step: Step) {
    step.PollTail? || step.PollPublish? || step.Evict?
  }

  lemma QuietHintStep(s: State, step: Step, s': State)
    requires Inv(s) && IsStep(s, step, s') && HintStep(step)
    ensures Inv(s')
  {
    hide AppendInv, CellInv, OneCellPerAppend, TailPosition, IsNonContiguousTail, Contiguous, Put, SetPhase, Refuse;
    if step.PollTail? {
      PolledTail(s, step.view, step.end);
    }
    HintsKeepInv(s, s');
  }

  lemma PolledTail(s: State, view: set<nat>, end: nat)
    requires Contiguous(s) && view <= s.space.Keys && IsNonContiguousTail(view, end)
    ensures TailPosition(view, end) <= s.Length()
  {
    ScannedTail(s, {}, view, end);
  }

  lemma HintsKeepInv(s: State, s': State)
    requires Inv(s) && s'.space == s.space && s'.appends == s.appends
    requires forall h :: h in s'.hints ==> s'.hints[h] <= s.Length()
    requires forall p :: p in s'.polls ==> s'.polls[p].end <= s.Length()
    ensures Inv(s')
  {
    hide AppendInv, CellInv, Contiguous, OneCellPerAppend;
    SpaceCarries(s, s');
    forall o | o in s'.appends ensures AppendInv(s', o) {
      AppendCarries(s, s', o);
    }
    forall a | a in s'.space ensures CellInv(s', a) {
      SameCell(s, s', a);
    }
  }

  lemma SameCell(s: State, s': State, a: nat)
    requires s'.space == s.space && s'.appends == s.appends && a in s.space && CellInv(s, a)
    ensures CellInv(s', a)
  {
  }

  /** Every step keeps the invariant. */
  lemma StepKeepsInv(s: State, step: Step, s': State)
    requires Inv(s) && IsStep(s, step, s')
    ensures Inv(s')
  {
    if Stores(step) {
      StoringKeepsInv(s, step.op, s'.appends[step.op].phase);
    } else if HintStep(step) {
      QuietHintStep(s, step, s');
    } else {
      QuietAppendStep(s, step, s');
    }
  }

  lemma {:induction false} RunKeepsInv(states: seq<State>, steps: seq<Step>, i: nat)
    requires IsRun(states, steps) && i < |states|
    ensures Inv(states[i])
  {
    if i > 0 {
      RunKeepsInv(states, steps, i - 1);
      StepKeepsInv(states[i - 1], steps[i - 1], states[i]);
    }
  }

  // ---- the theorems ----

  /** In every state of every run the log is [0, n), hints and in-flight positions are at most n,
      headers equal slots, and the one-address tail window is exact. */
  lemma LogIsContiguous(states: seq<State>, steps: seq<Step>, i: nat)
    requires IsRun(states, steps) && i < |states|
    ensures var s := states[i];
            var n := s.Length();
            && (forall a: nat :: a in s.space <==> a < n)
            && (forall a :: a in s.space ==> s.space[a].position == a)
            && (forall h :: h in s.hints ==> s.hints[h] <= n)
            && (forall op :: IsWriting(s, op) ==> s.appends[op].phase.position <= n)
            && (forall end :: IsNonContiguousTail(s.space.Keys, end) ==>
                IsContiguousTail(s.space.Keys, TailPosition(s.space.Keys, end)))
  {
    RunKeepsInv(states, steps, i);
    var s := states[i];
    forall op | IsWriting(s, op) ensures s.appends[op].phase.position <= s.Length() {
      assert AppendInv(s, op);
    }
    forall end | IsNonContiguousTail(s.space.Keys, end)
      ensures IsContiguousTail(s.space.Keys, TailPosition(s.space.Keys, end))
    {
      TailIsLength(s, end);
    }
  }

  /** A successful append's entry is in the log at the returned position and nowhere else;
      any other append has at most one entry, and none while it is still retrying. */
  lemma ExactlyOnce(states: seq<State>, steps: seq<Step>, i: nat, op: nat)
    requires IsRun(states, steps) && i < |states| && op in states[i].appends
    ensures var s, a := states[i], states[i].appends[op];
            && (a.phase.Done? ==> AuthorOf(s, a.phase.result, op) && s.space[a.phase.result].payload == a.payload)
            && (forall p, q :: AuthorOf(s, p, op) && AuthorOf(s, q, op) ==> p == q)
            && (forall p :: AuthorOf(s, p, op) ==> a.phase == Stored(p) || a.phase == Done(p) || a.phase.Failed?)
  {
    RunKeepsInv(states, steps, i);
    assert AppendInv(states[i], op);
  }

  /** The log as a sequence of payloads. */
  function LogOf(s: State): (log: seq<Payload>)
    requires forall a: nat :: a < s.Length() ==> a in s.space
    ensures |log| == s.Length()
    ensures forall i :: 0 <= i < |log| ==> log[i] == s.space[i].payload
  {
    seq(s.Length(), i requires 0 <= i < s.Length() => s.space[i].payload)
  }

  /** Refinement: a step leaves the log alone or appends the payload of the append it stores. */
  lemma StepAppendsAtMostOne(s: State, step: Step, s': State)
    requires Inv(s) && IsStep(s, step, s')
    ensures Contiguous(s')
    ensures LogOf(s') == if Stores(step) then LogOf(s) + [s.appends[step.op].payload] else LogOf(s)
  {
    StepKeepsInv(s, step, s');
    if Stores(step) {
      StoreGrowsLog(s, step.op, s'.appends[step.op].phase);
    } else {
      assert s'.space == s.space;
    }
  }

  lemma StoreGrowsLog(s: State, op: nat, phase: Phase)
    requires Inv(s) && IsWriting(s, op) && FindsFree(s, op)
    requires Contiguous(SetPhase(Put(s, op), op, phase))
    ensures LogOf(SetPhase(Put(s, op), op, phase)) == LogOf(s) + [s.appends[op].payload]
  {
    hide AppendInv, CellInv, OneCellPerAppend;
    PutAppends(s, op);
  }

  /** An append that starts after another returned gets a larger position. */
  lemma LaterAppendGetsLargerPosition(states: seq<State>, steps: seq<Step>, i: nat, k: nat, first: nat, second: nat)
    requires IsRun(states, steps) && i <= k < |states|
    requires first in states[i].appends && states[i].appends[first].phase.Done?
    requires second !in states[i].appends
    requires second in states[k].appends && states[k].appends[second].phase.Done?
    ensures states[i].appends[first].phase.result < states[k].appends[second].phase.result
  {
    RunKeepsInv(states, steps, i);
    RunKeepsInv(states, steps, k);
    assert AppendInv(states[i], first);
    StartTailGrows(states, steps, i, k, second);
    assert AppendInv(states[k], second);
  }

  lemma {:induction false} StartTailGrows(states: seq<State>, steps: seq<Step>, i: nat, k: nat, op: nat)
    requires IsRun(states, steps) && i <= k < |states|
    requires op !in states[i].appends
    ensures op in states[k].appends ==> states[i].Length() <= states[k].appends[op].startTail
    ensures states[i].Length() <= states[k].Length()
    decreases k - i
  {
    if i < k {
      StartTailGrows(states, steps, i, k - 1, op);
      RunKeepsStart(states, steps, k - 1, op);
    }
  }

  lemma StepKeepsStart(s: State, step: Step, s': State, op: nat)
    requires Inv(s) && IsStep(s, step, s')
    ensures s.Length() <= s'.Length()
    ensures op in s'.appends ==>
        s'.appends[op].startTail == if op in s.appends then s.appends[op].startTail else s.Length()
  {
    if Stores(step) {
      PutAppends(s, step.op);
    } else {
      assert s'.space == s.space;
    }
  }

  lemma RunKeepsStart(states: seq<State>, steps: seq<Step>, i: nat, op: nat)
    requires IsRun(states, steps) && i < |steps|
    ensures states[i].Length() <= states[i + 1].Length()
    ensures op in states[i + 1].appends ==>
              states[i + 1].appends[op].startTail
                  == if op in states[i].appends then states[i].appends[op].startTail else states[i].Length()
  {
    RunKeepsInv(states, steps, i);
    StepKeepsStart(states[i], steps[i], states[i + 1], op);
  }

  /** The step stores the length of the log as the handle's hint. */
  predicate PublishesEnd(s: State, step: Step, handle: nat) {
    match step
    case Publish(op) =>
      op in s.appends && s.appends[op].phase.Stored? && s.appends[op].handle == handle
      && s.appends[op].phase.at + 1 == s.Length()
    case PollPublish(poll) => poll in s.polls && s.polls[poll].handle == handle && s.polls[poll].end == s.Length()
    case _ => false
  }

  /** What hints are for: after an append or a poll has published the end of the log as its handle's hint,
      the next append through that handle finds its first address free. */
  lemma FreshHintFindsFree(s: State, step: Step, s': State, op: nat, handle: nat, payload: Payload)
    requires Inv(s) && IsStep(s, step, s') && op !in s'.appends
    requires PublishesEnd(s, step, handle)
    ensures Enabled(s', Start(op, handle, payload))
    ensures var started := Apply(s', Start(op, handle, payload));
            IsWriting(started, op) && started.appends[op].phase.position == started.Length() && FindsFree(started, op)
  {
    hide AppendInv, CellInv, OneCellPerAppend;
    assert s'.space == s.space;
  }

  /** Steps below n at which a write of `op` was refused, or met a transaction conflict. */
  ghost function RefusedSteps(steps: seq<Step>, n: nat, op: nat): set<nat> {
    set i: nat | i < n && i < |steps| && Refuses(steps[i], op)
  }

  predicate Refuses(step: Step, op: nat) {
    step == WriteRefused(op) || step == WriteConflicts(op)
  }

  predicate Conflicts(step: Step, op: nat) {
    step == WriteConflicts(op)
  }

  ghost function ConflictSteps(steps: seq<Step>, n: nat, op: nat): set<nat> {
    set i: nat | i < n && i < |steps| && Conflicts(steps[i], op)
  }

  lemma StepCounts(s: State, step: Step, s': State, op: nat)
    requires IsStep(s, step, s') && op in s'.appends
    ensures var a := s'.appends[op];
            var failures := if op in s.appends then s.appends[op].failures else 0;
            var conflicts := if op in s.appends then s.appends[op].conflicts else 0;
            && a.failures == failures + (if Refuses(step, op) then 1 else 0)
            && a.conflicts == conflicts + (if Conflicts(step, op) then 1 else 0)
  {
    hide TailPosition, IsNonContiguousTail, FindsFree, Put;
    if Stores(step) {
      PutKeepsAppends(s, step.op);
    }
  }

  lemma PutKeepsAppends(s: State, op: nat)
    requires IsWriting(s, op)
    ensures Put(s, op).appends == s.appends
  {
  }

  lemma {:induction false} NoStepsYet(states: seq<State>, steps: seq<Step>, n: nat, op: nat)
    requires IsRun(states, steps) && n < |states| && op !in states[n].appends
    ensures RefusedSteps(steps, n, op) == {} && ConflictSteps(steps, n, op) == {}
  {
    hide Apply;
    if n > 0 {
      AppendsStay(states[n - 1], steps[n - 1], states[n], op);
      NoStepsYet(states, steps, n - 1, op);
    }
  }

  lemma AppendsStay(s: State, step: Step, s': State, op: nat)
    requires IsStep(s, step, s') && op !in s'.appends
    ensures op !in s.appends && step != WriteRefused(op) && step != WriteConflicts(op)
  {
  }

  /** The counters count: an append's failures are its refused writes, its conflicts those for a conflict. */
  lemma {:induction false} FailuresAreCounted(states: seq<State>, steps: seq<Step>, n: nat, op: nat)
    requires IsRun(states, steps) && n < |states| && op in states[n].appends
    ensures states[n].appends[op].failures == |RefusedSteps(steps, n, op)|
    ensures states[n].appends[op].conflicts == |ConflictSteps(steps, n, op)|
  {
    hide Apply, Enabled;
    if n > 0 {
      var s, step := states[n - 1], steps[n - 1];
      assert IsStep(s, step, states[n]);
      StepCounts(s, step, states[n], op);
      if op in s.appends {
        FailuresAreCounted(states, steps, n - 1, op);
      } else {
        NoStepsYet(states, steps, n - 1, op);
      }
      CountRefusal(steps, n - 1, op);
      CountConflict(steps, n - 1, op);
    }
  }

  lemma CountRefusal(steps: seq<Step>, n: nat, op: nat)
    requires n < |steps|
    ensures |RefusedSteps(steps, n + 1, op)| == |RefusedSteps(steps, n, op)| + (if Refuses(steps[n], op) then 1 else 0)
  {
    hide Refuses;
    var before, after := RefusedSteps(steps, n, op), RefusedSteps(steps, n + 1, op);
    assert n !in before;
    if Refuses(steps[n], op) {
      assert after == before + {n};
    } else {
      assert after == before;
    }
  }

  lemma CountConflict(steps: seq<Step>, n: nat, op: nat)
    requires n < |steps|
    ensures |ConflictSteps(steps, n + 1, op)| ==
            |ConflictSteps(steps, n, op)| + (if Conflicts(steps[n], op) then 1 else 0)
  {
    hide Conflicts;
    var before, after := ConflictSteps(steps, n, op), ConflictSteps(steps, n + 1, op);
    assert n !in before;
    if Conflicts(steps[n], op) {
      assert after == before + {n};
    } else {
      assert after == before;
    }
  }

  /** Entries that others added since append `op` started. */
  ghost function OthersSince(s: State, op: nat): set<nat>
    requires op in s.appends
  {
    set p | p in s.space && s.appends[op].startTail <= p && s.space[p].author != op
  }

  lemma {:induction false} RangeSize(lo: nat, hi: nat, range: set<nat>)
    requires lo <= hi && forall p: nat :: p in range <==> lo <= p < hi
    ensures |range| == hi - lo
    decreases hi - lo
  {
    if lo < hi {
      RangeSize(lo + 1, hi, range - {lo});
    } else {
      assert range == {};
    }
  }

  /** Others filled every position since the start except the append's own, if it stored. */
  lemma OthersCount(s: State, op: nat)
    requires Inv(s) && op in s.appends
    ensures forall p :: AuthorOf(s, p, op) ==> |OthersSince(s, op)| == s.Length() - s.appends[op].startTail - 1
    ensures (forall p :: !AuthorOf(s, p, op)) ==> |OthersSince(s, op)| == s.Length() - s.appends[op].startTail
  {
    hide Explained;
    var lo := s.appends[op].startTail;
    assert AppendInv(s, op);
    var range := set p | p in s.space && lo <= p;
    RangeSize(lo, s.Length(), range);
    if p :| AuthorOf(s, p, op) {
      assert CellInv(s, p);
      assert OthersSince(s, op) == range - {p};
    } else {
      assert forall p :: p in range ==> !AuthorOf(s, p, op);
      assert OthersSince(s, op) == range;
    }
  }

  /** Progress, for every append in every state: its failed attempts number at most one, plus its
      transaction conflicts, plus the entries others added since it started. Once it has returned,
      only those before its own position count. */
  lemma FailedAttemptsAreBounded(states: seq<State>, steps: seq<Step>, i: nat, op: nat)
    requires IsRun(states, steps) && i < |states| && op in states[i].appends
    ensures var s, a := states[i], states[i].appends[op];
            && a.failures <= 1 + a.conflicts + |OthersSince(s, op)|
            && (a.phase.Done? ==>
                  && a.startTail <= a.phase.result < s.Length()
                  && a.failures <= 1 + a.conflicts + (a.phase.result - a.startTail)
                  && forall p :: a.startTail <= p < a.phase.result ==> p in s.space && s.space[p].author != op)
  {
    hide IsRun;
    RunKeepsInv(states, steps, i);
    FailuresExplained(states[i], op);
  }

  lemma FailuresExplained(s: State, op: nat)
    requires Inv(s) && op in s.appends
    ensures var a := s.appends[op];
            && a.failures <= 1 + a.conflicts + |OthersSince(s, op)|
            && (a.phase.Done? ==>
                  && a.startTail <= a.phase.result < s.Length()
                  && a.failures <= 1 + a.conflicts + (a.phase.result - a.startTail)
                  && forall p :: a.startTail <= p < a.phase.result ==> p in s.space && s.space[p].author != op)
  {
    assert AppendInv(s, op);
    OthersCount(s, op);
    if p :| AuthorOf(s, p, op) {
      assert CellInv(s, p);
    } else if s.appends[op].phase.Conflicted? {
      SeenIsShorter(s.appends[op].phase.seen, s.space.Keys);
    }
  }
}

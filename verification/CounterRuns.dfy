/** Runs of any number of counter clients over one log with one decider and arbitrary other
    writers (voters, policy setters). Every bus call of a client is a step. */
module CounterRuns {
  import opened Bus
  import opened History
  import opened Linearizability
  import opened Counter
  import opened LogEvidence
  import opened CounterCounting
  import DR = DeciderRuns

  /** An operation in progress. `start` and `startLen` are the clock and the log length at its call. */
  datatype Job =
    | Idle
    | Invoked(op: CounterOperation, start: nat, startLen: nat)
    | Waiting(op: CounterOperation, start: nat, startLen: nat, intention: nat)
    | Draining(op: CounterOperation, start: nat, startLen: nat, watched: Option<nat>, target: nat,
        found: Option<Completion>)

  /** One client: number of finished operations, replay state and current job. */
  datatype Client = Client(next: nat, cursor: nat, last: int, view: View, job: Job)

  /** A finished operation; the log lengths at its call and return and the position of its
      intention only record what happened. */
  datatype Record = Record(obs: CounterObservation, startLen: nat, endLen: nat, intention: Option<nat>)

  datatype State = State(clock: nat, bus: DR.State, clients: map<nat, Client>, history: seq<Record>)

  function Log(s: State): seq<Payload> {
    DR.Payloads(s.bus.log)
  }

  function Observations(history: seq<Record>): (obs: seq<CounterObservation>)
    ensures |obs| == |history| && forall k :: 0 <= k < |obs| ==> obs[k] == history[k].obs
  {
    seq(|history|, k requires 0 <= k < |history| => history[k].obs)
  }

  datatype Step =
    | Tick
    | BusStep(step: DR.Step)                  // the decider, or a writer outside the clients
    | Invoke(client: nat, op: CounterOperation)
    | Submit(client: nat)                     // append the intention of a write
    | CheckTail(client: nat)
    | Poll(client: nat, upTo: nat)            // read and process log[cursor..upTo)
    | Return(client: nat)
    | Retry(client: nat)                      // drained without a decision: wait and look again

  function Command(c: nat, cl: Client, op: CounterOperation): Payload {
    Intention(CounterBody(OperationId(c, cl.next), op), Unconstrained)
  }

  /** Writers other than clients and decider append neither decisions nor counter commands. */
  predicate BusEnabled(bus: DR.State, step: DR.Step) {
    && DR.Enabled(bus, step)
    && match step
       case External(p) => !p.IsDecision() && !IsCounterWrite(p)
       case Spawn(_) => false
       case Consume(_) => true
       case Publish(_) => true
  }

  predicate Enabled(s: State, step: Step) {
    match step
    case Tick => true
    case BusStep(b) => BusEnabled(s.bus, b)
    case Invoke(c, _) => c in s.clients && s.clients[c].job.Idle?
    case Submit(c) => c in s.clients && s.clients[c].job.Invoked? && s.clients[c].job.op.IsWrite()
    case CheckTail(c) =>
        c in s.clients
        && (s.clients[c].job.Waiting? || (s.clients[c].job.Invoked? && s.clients[c].job.op.Read?))
    case Poll(c, upTo) =>
        c in s.clients && s.clients[c].job.Draining? && s.clients[c].cursor < s.clients[c].job.target
        && s.clients[c].cursor < upTo <= |s.bus.log|
    case Return(c) =>
        c in s.clients && Drained(s.clients[c])
        && (s.clients[c].job.watched.Some? ==> s.clients[c].job.found.Some?)
    case Retry(c) =>
        c in s.clients && Drained(s.clients[c]) && s.clients[c].job.watched.Some?
        && s.clients[c].job.found.None?
  }

  predicate Drained(cl: Client) {
    cl.job.Draining? && cl.job.target <= cl.cursor
  }

  function Finished(c: nat, cl: Client, clock: nat, len: nat): Record
    requires cl.job.Draining? && (cl.job.watched.Some? ==> cl.job.found.Some?)
  {
    var id := OperationId(c, cl.next);
    var j := cl.job;
    if j.watched.None? then
        Record(Observation(id, j.start, clock, j.op, Value(cl.view.value), cl.last), j.startLen, len, None)
    else Record(Observation(id, j.start, clock, j.op, j.found.value.output, j.found.value.tag as int), j.startLen, len,
        j.watched)
  }

  function SetClient(s: State, c: nat, cl: Client): State {
    s.(clients := s.clients[c := cl])
  }

  ghost function Apply(s: State, step: Step): State
    requires Enabled(s, step)
  {
    match step
    case Tick => s.(clock := s.clock + 1)
    case BusStep(b) => s.(bus := DR.Apply(s.bus, b))
    case Invoke(c, op) => SetClient(s, c, s.clients[c].(job := Invoked(op, s.clock, |s.bus.log|)))
    case Submit(c) =>
      var j := s.clients[c].job;
      SetClient(s.(bus := DR.Apply(s.bus, DR.External(Command(c, s.clients[c], j.op)))), c,
                s.clients[c].(job := Waiting(j.op, j.start, j.startLen, |s.bus.log|)))
    case CheckTail(c) =>
      var j := s.clients[c].job;
      SetClient(s, c, s.clients[c].(job :=
          Draining(j.op, j.start, j.startLen, if j.Waiting? then Some(j.intention) else None, |s.bus.log|, None)))
    case Poll(c, upTo) => SetClient(s, c, Polled(s.clients[c], Log(s), upTo))
    case Return(c) =>
      s.(clients := s.clients[c := s.clients[c].(next := s.clients[c].next + 1, job := Idle)],
         history := s.history + [Finished(c, s.clients[c], s.clock, |s.bus.log|)])
    case Retry(c) =>
      var j := s.clients[c].job;
      SetClient(s, c, s.clients[c].(job := Waiting(j.op, j.start, j.startLen, j.watched.value)))
  }

  /** A client after processing log[cursor..upTo), one entry at a time. */
  ghost function Polled(cl: Client, log: seq<Payload>, upTo: nat): Client
    requires cl.cursor <= upTo <= |log| && cl.job.Draining?
    decreases upTo - cl.cursor
  {
    if cl.cursor == upTo then cl
    else
      var (view, done) := ProcessEntry(cl.view, cl.cursor, log[cl.cursor], cl.job.watched);
      Polled(cl.(cursor := cl.cursor + 1, last := cl.cursor, view := view,
          job := cl.job.(found := Newer(cl.job.found, done))), log, upTo)
  }

  ghost predicate Init(s: State) {
    && s.clock == 0 && s.history == []
    && s.bus == DR.State([], map[0 := DR.Instance(0, DR.Decider.Fresh, None)])
    && forall c :: c in s.clients ==> s.clients[c] == Client(0, 0, -1, Blank, Idle)
  }

  ghost predicate IsRun(states: seq<State>, steps: seq<Step>) {
    && |states| == |steps| + 1
    && Init(states[0])
    && forall i {:trigger steps[i]} :: 0 <= i < |steps| ==>
        Enabled(states[i], steps[i]) && states[i + 1] == Apply(states[i], steps[i])
  }

  // ---- invariant ----

  ghost predicate NoDecision(log: seq<Payload>, p: nat, n: nat) {
    forall q :: 0 <= q < n && q < |log| ==> !log[q].Decides(p)
  }

  ghost predicate IsCommand(log: seq<Payload>, p: nat, id: OperationId, op: CounterOperation) {
    p < |log| && op.IsWrite() && log[p] == Intention(CounterBody(id, op), Unconstrained)
  }

  ghost predicate JobInv(log: seq<Payload>, clock: nat, c: nat, cl: Client) {
    match cl.job
    case Idle => true
    case Invoked(op, start, len) => start <= clock && len <= |log|
    case Waiting(op, start, len, p) =>
        start <= clock && len <= p && IsCommand(log, p, OperationId(c, cl.next), op)
        && NoDecision(log, p, cl.cursor)
    case Draining(op, start, len, watched, target, found) =>
      && start <= clock && target <= |log|
      && (watched.None? ==> op.Read? && len <= target)
      && (watched.Some? ==> && len <= watched.value && IsCommand(log, watched.value, OperationId(c, cl.next), op)
                            && (found.None? ==> NoDecision(log, watched.value, cl.cursor))
                            && (found.Some? ==> AnswersWrite(log, watched.value, found.value.tag, found.value.output)))
  }

  ghost predicate ClientInv(log: seq<Payload>, clock: nat, c: nat, cl: Client) {
    && cl.cursor <= |log| && cl.last == cl.cursor - 1
    && cl.view == Replayed(log, cl.cursor)
    && JobInv(log, clock, c, cl)
  }

  ghost predicate RecordInv(log: seq<Payload>, clock: nat, r: Record) {
    && r.obs.start <= r.obs.end <= clock && r.startLen <= r.endLen <= |log|
    && match r.intention
       case Some(p) =>
           r.startLen <= p && IsCommand(log, p, r.obs.id, r.obs.operation) && r.obs.tag < r.endLen
           && AnswersWrite(log, p, r.obs.tag, r.obs.output)
       case None =>
           r.obs.operation.Read? && r.startLen <= r.obs.tag + 1 <= r.endLen
           && r.obs.output == Value(Replayed(log, r.obs.tag + 1).value)
  }

  predicate Ordered(a: Record, b: Record) {
    && a.obs.id != b.obs.id
    && (a.obs.end < b.obs.start ==> a.endLen <= b.startLen)
    && (a.obs.id.client == b.obs.id.client && a.obs.id.sequence < b.obs.id.sequence ==>
        a.obs.end <= b.obs.start && a.endLen <= b.startLen)
  }

  ghost predicate PairsInv(history: seq<Record>) {
    forall i, j :: 0 <= i < |history| && 0 <= j < |history| && i != j ==> Ordered(history[i], history[j])
  }

  /** A finished operation and a client's operation in progress. */
  predicate BeforeJob(r: Record, c: nat, cl: Client) {
    && (r.obs.id.client == c ==> r.obs.id.sequence < cl.next)
    && (!cl.job.Idle? ==> && (r.obs.end < cl.job.start ==> r.endLen <= cl.job.startLen)
                          && (r.obs.id.client == c ==> r.obs.end <= cl.job.start && r.endLen <= cl.job.startLen))
  }

  ghost predicate HasRecord(history: seq<Record>, id: OperationId) {
    exists k :: 0 <= k < |history| && history[k].obs.id == id
  }

  /** Every operation number below `next` is in the history. */
  ghost predicate NumbersInv(history: seq<Record>, c: nat, cl: Client) {
    forall n: nat :: n < cl.next ==> HasRecord(history, OperationId(c, n))
  }

  predicate Pursues(j: Job, p: nat) {
    (j.Waiting? && j.intention == p) || (j.Draining? && j.watched == Some(p))
  }

  /** The counter command at p belongs to a finished operation or to a client's current one. */
  ghost predicate OwnedInv(log: seq<Payload>, clients: map<nat, Client>, history: seq<Record>, p: nat)
    requires p < |log|
  {
    IsCounterWrite(log[p]) ==>
      var id := log[p].body.id;
      (exists k :: 0 <= k < |history| && history[k].intention == Some(p))
          || (id.client in clients && Pursues(clients[id.client].job, p))
  }

  ghost predicate BusInv(bus: DR.State) {
    && DR.Inv(bus)
    && bus.instances.Keys == {0}
    && forall q :: 0 <= q < |bus.log| && bus.log[q].author.None? ==> !bus.log[q].payload.IsDecision()
  }

  ghost predicate HistoryInv(log: seq<Payload>, clock: nat, history: seq<Record>) {
    && (forall k :: 0 <= k < |history| ==> RecordInv(log, clock, history[k]))
    && PairsInv(history)
  }

  ghost predicate ClientsInv(log: seq<Payload>, clock: nat, clients: map<nat, Client>, history: seq<Record>) {
    && (forall c :: c in clients ==> ClientInv(log, clock, c, clients[c]))
    && (forall c :: c in clients ==> NumbersInv(history, c, clients[c]))
    && (forall c, k :: c in clients && 0 <= k < |history| ==> BeforeJob(history[k], c, clients[c]))
    && (forall k :: 0 <= k < |history| ==> history[k].obs.id.client in clients)
  }

  ghost predicate AllOwned(log: seq<Payload>, clients: map<nat, Client>, history: seq<Record>) {
    forall p :: 0 <= p < |log| ==> OwnedInv(log, clients, history, p)
  }

  ghost predicate Inv(s: State) {
    && BusInv(s.bus)
    && HistoryInv(Log(s), s.clock, s.history)
    && ClientsInv(Log(s), s.clock, s.clients, s.history)
    && AllOwned(Log(s), s.clients, s.history)
  }

  // ---- the log is good for clients ----

  lemma BusLogIsGood(bus: DR.State)
    requires BusInv(bus)
    ensures GoodLog(DR.Payloads(bus.log))
  {
    hide DR.Decider.Output;
    var log := DR.Payloads(bus.log);
    forall q | 0 <= q < |log| && log[q].IsDecision()
      ensures exists p :: 0 <= p < q && log[q].Decides(p) && log[p].Intention? {
      assert DR.EntryInv(bus, q);
      DR.Decider.OutputMeaning(log, bus.log[q].cause);
    }
    forall p, q, r | 0 <= q < r < |log| && log[q].Decides(p) && log[r].Decides(p) ensures false {
      DecidedOnce(bus, p, q, r);
    }
  }

  lemma DecidedOnce(bus: DR.State, p: int, q: nat, r: nat)
    requires BusInv(bus) && q < |bus.log| && r < |bus.log|
    requires bus.log[q].payload.Decides(p) && bus.log[r].payload.Decides(p)
    ensures q == r
  {
    hide DR.Decider.Output, DR.Inv;
    var log := DR.Payloads(bus.log);
    DR.InvEntries(bus, q, r);
    DR.Decider.OutputMeaning(log, bus.log[q].cause);
    DR.OneCausePerIntention(log, bus.log[q].cause, bus.log[r].cause, p);
  }

  // ---- every step keeps the invariant ----

  lemma GrowAnswer(log: seq<Payload>, e: Payload, p: nat, tag: int, output: CounterOutput)
    requires AnswersWrite(log, p, tag, output)
    ensures AnswersWrite(log + [e], p, tag, output)
  {
    ReplayedOfPrefix(log, [e], tag + 1);
  }

  lemma GrowClient(log: seq<Payload>, e: Payload, clock: nat, c: nat, cl: Client)
    requires ClientInv(log, clock, c, cl)
    ensures ClientInv(log + [e], clock, c, cl)
  {
    hide Replayed, AnswersWrite;
    ReplayedOfPrefix(log, [e], cl.cursor);
    if cl.job.Draining? && cl.job.watched.Some? && cl.job.found.Some? {
      GrowAnswer(log, e, cl.job.watched.value, cl.job.found.value.tag, cl.job.found.value.output);
    }
  }

  lemma GrowRecord(log: seq<Payload>, e: Payload, clock: nat, r: Record)
    requires RecordInv(log, clock, r)
    ensures RecordInv(log + [e], clock, r)
  {
    hide Replayed, AnswersWrite;
    match r.intention {
      case Some(p) => GrowAnswer(log, e, p, r.obs.tag, r.obs.output);
      case None => ReplayedOfPrefix(log, [e], r.obs.tag + 1);
    }
  }

  /** The log grows by an entry that is not a counter command. */
  lemma GrowKeepsInv(log: seq<Payload>, e: Payload, clock: nat, clients: map<nat, Client>, history: seq<Record>)
    requires HistoryInv(log, clock, history) && ClientsInv(log, clock, clients, history)
    ensures HistoryInv(log + [e], clock, history) && ClientsInv(log + [e], clock, clients, history)
  {
    hide ClientInv, RecordInv, NumbersInv, BeforeJob, PairsInv;
    forall c | c in clients ensures ClientInv(log + [e], clock, c, clients[c]) {
      GrowClient(log, e, clock, c, clients[c]);
    }
    forall k | 0 <= k < |history| ensures RecordInv(log + [e], clock, history[k]) {
      GrowRecord(log, e, clock, history[k]);
    }
  }

  lemma GrowKeepsOwned(log: seq<Payload>, e: Payload, clients: map<nat, Client>, history: seq<Record>)
    requires AllOwned(log, clients, history) && !IsCounterWrite(e)
    ensures AllOwned(log + [e], clients, history)
  {
    forall p | 0 <= p < |log + [e]| ensures OwnedInv(log + [e], clients, history, p) {
      if p < |log| {
        assert OwnedInv(log, clients, history, p);
      }
    }
  }

  lemma TickKeepsInv(s: State)
    requires Inv(s)
    ensures Inv(Apply(s, Tick))
  {
    hide BusInv, Replayed, AnswersWrite, NumbersInv, PairsInv, AllOwned, IsCommand, NoDecision;
    var s' := Apply(s, Tick);
    assert Log(s') == Log(s);
  }

  lemma BusStepKeepsBus(bus: DR.State, b: DR.Step)
    requires BusInv(bus) && BusEnabled(bus, b)
    ensures BusInv(DR.Apply(bus, b))
    ensures var log, log' := DR.Payloads(bus.log), DR.Payloads(DR.Apply(bus, b).log);
            log' == log || (|log'| == |log| + 1 && log' == log + [log'[|log|]] && !IsCounterWrite(log'[|log|]))
  {
    hide DR.Inv, DR.InstanceInv;
    DR.StepKeepsInv(bus, b);
    var bus' := DR.Apply(bus, b);
    if b.Publish? {
      PublishedIsDecision(bus, b.id);
    }
    if b.External? || b.Publish? {
      DR.AppendKeepsOutputs(bus.log, bus'.log[|bus.log|]);
    }
  }

  lemma PublishedIsDecision(bus: DR.State, id: nat)
    requires DR.Inv(bus) && id in bus.instances && bus.instances[id].outbox.Some?
    ensures bus.instances[id].outbox.value.IsDecision()
  {
    assert DR.InstanceInv(DR.Payloads(bus.log), bus.instances[id]);
  }

  lemma BusStepKeepsInv(s: State, b: DR.Step)
    requires Inv(s) && BusEnabled(s.bus, b)
    ensures Inv(Apply(s, BusStep(b)))
  {
    hide BusInv, HistoryInv, ClientsInv, AllOwned, DR.Apply;
    var s' := Apply(s, BusStep(b));
    BusStepKeepsBus(s.bus, b);
    if Log(s') != Log(s) {
      var e := Log(s')[|Log(s)|];
      GrowKeepsInv(Log(s), e, s.clock, s.clients, s.history);
      GrowKeepsOwned(Log(s), e, s.clients, s.history);
    }
  }

  /** A step of client c that keeps its number, its current span and its intention. */
  lemma ClientStepKeepsInv(s: State, c: nat, cl: Client)
    requires Inv(s) && c in s.clients && ClientInv(Log(s), s.clock, c, cl)
    requires cl.next == s.clients[c].next && !s.clients[c].job.Idle? && !cl.job.Idle?
    requires cl.job.start == s.clients[c].job.start && cl.job.startLen == s.clients[c].job.startLen
    requires forall p: nat :: Pursues(s.clients[c].job, p) ==> Pursues(cl.job, p)
    ensures Inv(SetClient(s, c, cl))
  {
    hide BusInv, HistoryInv, ClientInv, HasRecord;
    var s' := SetClient(s, c, cl);
    forall d, k | d in s'.clients && 0 <= k < |s.history| ensures BeforeJob(s.history[k], d, s'.clients[d]) {
      assert BeforeJob(s.history[k], d, s.clients[d]);
    }
    forall d | d in s'.clients ensures NumbersInv(s.history, d, s'.clients[d]) {
      assert NumbersInv(s.history, d, s.clients[d]);
    }
    SetClientKeepsOwned(s, c, cl);
  }

  lemma SetClientKeepsOwned(s: State, c: nat, cl: Client)
    requires AllOwned(Log(s), s.clients, s.history) && c in s.clients
    requires forall p: nat :: Pursues(s.clients[c].job, p) ==> Pursues(cl.job, p)
    ensures AllOwned(Log(s), s.clients[c := cl], s.history)
  {
    var clients' := s.clients[c := cl];
    forall p | 0 <= p < |Log(s)| ensures OwnedInv(Log(s), clients', s.history, p) {
      assert OwnedInv(Log(s), s.clients, s.history, p);
    }
  }

  lemma InvokeKeepsInv(s: State, c: nat, op: CounterOperation)
    requires Inv(s) && Enabled(s, Invoke(c, op))
    ensures Inv(Apply(s, Invoke(c, op)))
  {
    hide BusInv, PairsInv, Replayed, AnswersWrite, HasRecord;
    var s' := Apply(s, Invoke(c, op));
    forall d, k | d in s'.clients && 0 <= k < |s.history| ensures BeforeJob(s.history[k], d, s'.clients[d]) {
      assert BeforeJob(s.history[k], d, s.clients[d]) && RecordInv(Log(s), s.clock, s.history[k]);
    }
    forall d | d in s'.clients
      ensures NumbersInv(s.history, d, s'.clients[d]) && ClientInv(Log(s), s.clock, d, s'.clients[d]) {
      assert NumbersInv(s.history, d, s.clients[d]) && ClientInv(Log(s), s.clock, d, s.clients[d]);
    }
    SetClientKeepsOwned(s, c, s'.clients[c]);
  }

  lemma SubmitKeepsInv(s: State, c: nat)
    requires Inv(s) && Enabled(s, Submit(c))
    ensures Inv(Apply(s, Submit(c)))
  {
    hide BusInv, HistoryInv, ClientsInv, AllOwned, ClientInv, GoodLog;
    var s' := Apply(s, Submit(c));
    var cmd := Command(c, s.clients[c], s.clients[c].job.op);
    SubmitBus(s.bus, cmd);
    GrowKeepsInv(Log(s), cmd, s.clock, s.clients, s.history);
    BusLogIsGood(s'.bus);
    SubmittedClient(s, c);
    SubmittedClients(Log(s'), s.clock, s.clients, s.history, c, s'.clients[c]);
    SubmittedOwned(s, c);
  }

  lemma SubmitBus(bus: DR.State, cmd: Payload)
    requires BusInv(bus) && cmd.Intention?
    ensures BusInv(DR.Apply(bus, DR.External(cmd)))
    ensures DR.Payloads(DR.Apply(bus, DR.External(cmd)).log) == DR.Payloads(bus.log) + [cmd]
  {
    hide DR.Inv;
    DR.StepKeepsInv(bus, DR.External(cmd));
    DR.AppendKeepsOutputs(bus.log, DR.Entry(cmd, None, 0));
  }

  lemma SubmittedClient(s: State, c: nat)
    requires Inv(s) && Enabled(s, Submit(c))
    requires var log' := Log(Apply(s, Submit(c)));
             log' == Log(s) + [Command(c, s.clients[c], s.clients[c].job.op)] && GoodLog(log')
    ensures ClientInv(Log(Apply(s, Submit(c))), s.clock, c, Apply(s, Submit(c)).clients[c])
  {
    hide BusInv, HistoryInv, AllOwned, Replayed, DR.Inv;
    var log := Log(s);
    var log' := Log(Apply(s, Submit(c)));
    assert ClientInv(log, s.clock, c, s.clients[c]);
    GrowClient(log, Command(c, s.clients[c], s.clients[c].job.op), s.clock, c, s.clients[c]);
    forall q | 0 <= q < s.clients[c].cursor && q < |log'| ensures !log'[q].Decides(|log|) {
      if log'[q].IsDecision() {
        var p :| 0 <= p < q && log'[q].Decides(p) && log'[p].Intention?;
      }
    }
  }

  lemma SubmittedClients(log: seq<Payload>, clock: nat, clients: map<nat, Client>, history: seq<Record>, c: nat,
      cl: Client)
    requires ClientsInv(log, clock, clients, history) && c in clients && ClientInv(log, clock, c, cl)
    requires cl.next == clients[c].next && !clients[c].job.Idle? && !cl.job.Idle?
    requires cl.job.start == clients[c].job.start && cl.job.startLen == clients[c].job.startLen
    ensures ClientsInv(log, clock, clients[c := cl], history)
  {
    hide ClientInv, HasRecord;
    forall d, k | d in clients && 0 <= k < |history| ensures BeforeJob(history[k], d, clients[c := cl][d]) {
      assert BeforeJob(history[k], d, clients[d]);
    }
    forall d | d in clients ensures NumbersInv(history, d, clients[c := cl][d]) {
      assert NumbersInv(history, d, clients[d]);
    }
  }

  lemma SubmittedOwned(s: State, c: nat)
    requires Inv(s) && Enabled(s, Submit(c))
    requires Log(Apply(s, Submit(c))) == Log(s) + [Command(c, s.clients[c], s.clients[c].job.op)]
    ensures var s' := Apply(s, Submit(c)); AllOwned(Log(s'), s'.clients, s'.history)
  {
    hide BusInv, HistoryInv, ClientsInv;
    var s' := Apply(s, Submit(c));
    forall p | 0 <= p < |Log(s')| ensures OwnedInv(Log(s'), s'.clients, s'.history, p) {
      if p < |Log(s)| {
        assert OwnedInv(Log(s), s.clients, s.history, p);
      }
    }
  }

  lemma CheckTailKeepsInv(s: State, c: nat)
    requires Inv(s) && Enabled(s, CheckTail(c))
    ensures Inv(Apply(s, CheckTail(c)))
  {
    hide BusInv, HistoryInv, AllOwned, Replayed, BeforeJob, NumbersInv;
    assert ClientInv(Log(s), s.clock, c, s.clients[c]);
    ClientStepKeepsInv(s, c, Apply(s, CheckTail(c)).clients[c]);
  }

  lemma RetryKeepsInv(s: State, c: nat)
    requires Inv(s) && Enabled(s, Retry(c))
    ensures Inv(Apply(s, Retry(c)))
  {
    hide BusInv, HistoryInv, AllOwned, Replayed, BeforeJob, NumbersInv;
    assert ClientInv(Log(s), s.clock, c, s.clients[c]);
    ClientStepKeepsInv(s, c, Apply(s, Retry(c)).clients[c]);
  }

  /** Processing a batch entry by entry is draining the range. */
  lemma {:induction false} PolledMeaning(cl: Client, log: seq<Payload>, upTo: nat)
    requires cl.cursor <= upTo <= |log| && cl.job.Draining? && cl.last == cl.cursor - 1
        && cl.view == Replayed(log, cl.cursor)
    ensures var cl' := Polled(cl, log, upTo);
            && cl'.cursor == upTo && cl'.last == upTo - 1 && cl'.view == Replayed(log, upTo) && cl'.next == cl.next
            && cl'.job == cl.job.(found := Newer(cl.job.found, Completed(log, cl.cursor, upTo, cl.job.watched)))
    decreases upTo - cl.cursor
  {
    if cl.cursor < upTo {
      var (view, done) := ProcessEntry(cl.view, cl.cursor, log[cl.cursor], cl.job.watched);
      WatchingIsPassive(cl.view, cl.cursor, log[cl.cursor], cl.job.watched);
      PolledMeaning(cl.(cursor := cl.cursor + 1, last := cl.cursor, view := view,
          job := cl.job.(found := Newer(cl.job.found, done))), log, upTo);
      CompletedSplits(log, cl.cursor, cl.cursor + 1, upTo, cl.job.watched);
    }
  }

  lemma PolledClient(log: seq<Payload>, clock: nat, c: nat, cl: Client, upTo: nat)
    requires GoodLog(log) && ClientInv(log, clock, c, cl) && cl.job.Draining? && cl.cursor <= upTo <= |log|
    ensures ClientInv(log, clock, c, Polled(cl, log, upTo))
  {
    hide GoodLog, Polled, Replayed, Completed, AnswersWrite;
    PolledMeaning(cl, log, upTo);
    if cl.job.watched.Some? {
      CompletedMeaning(log, cl.cursor, upTo, cl.job.watched.value);
    }
  }

  lemma PollKeepsInv(s: State, c: nat, upTo: nat)
    requires Inv(s) && Enabled(s, Poll(c, upTo))
    ensures Inv(Apply(s, Poll(c, upTo)))
  {
    hide BusInv, HistoryInv, AllOwned, Polled, ClientInv, BeforeJob, NumbersInv, GoodLog;
    BusLogIsGood(s.bus);
    PolledClient(Log(s), s.clock, c, s.clients[c], upTo);
    PolledJob(Log(s), s.clock, c, s.clients[c], upTo);
    ClientStepKeepsInv(s, c, Polled(s.clients[c], Log(s), upTo));
  }

  lemma PolledJob(log: seq<Payload>, clock: nat, c: nat, cl: Client, upTo: nat)
    requires ClientInv(log, clock, c, cl) && cl.job.Draining? && cl.cursor <= upTo <= |log|
    ensures Polled(cl, log, upTo).next == cl.next && Polled(cl, log, upTo).job.Draining?
    ensures exists found :: Polled(cl, log, upTo).job == cl.job.(found := found)
  {
    PolledMeaning(cl, log, upTo);
  }

  lemma ReturnKeepsInv(s: State, c: nat)
    requires Inv(s) && Enabled(s, Return(c))
    ensures Inv(Apply(s, Return(c)))
  {
    hide BusInv, HistoryInv, ClientsInv, AllOwned;
    var s' := Apply(s, Return(c));
    ReturnHistory(s, c);
    ReturnClients(s, c);
    ReturnOwned(s, c);
  }

  lemma FinishedIsGood(log: seq<Payload>, clock: nat, c: nat, cl: Client)
    requires Drained(cl) && (cl.job.watched.Some? ==> cl.job.found.Some?)
    requires ClientInv(log, clock, c, cl)
    ensures RecordInv(log, clock, Finished(c, cl, clock, |log|))
  {
    hide Replayed;
  }

  lemma ReturnHistory(s: State, c: nat)
    requires Inv(s) && Enabled(s, Return(c))
    ensures HistoryInv(Log(s), s.clock, Apply(s, Return(c)).history)
  {
    hide BusInv, AllOwned, RecordInv, ClientInv, NumbersInv;
    FinishedIsGood(Log(s), s.clock, c, s.clients[c]);
    var r := Finished(c, s.clients[c], s.clock, |s.bus.log|);
    forall k | 0 <= k < |s.history| ensures Ordered(s.history[k], r) && Ordered(r, s.history[k]) {
      assert BeforeJob(s.history[k], c, s.clients[c]);
      RecordTimes(s, s.history[k]);
    }
  }

  lemma RecordTimes(s: State, r: Record)
    requires RecordInv(Log(s), s.clock, r)
    ensures r.obs.start <= r.obs.end <= s.clock && r.endLen <= |s.bus.log| == |Log(s)|
  {
  }

  lemma ReturnClients(s: State, c: nat)
    requires Inv(s) && Enabled(s, Return(c))
    ensures var s' := Apply(s, Return(c)); ClientsInv(Log(s), s.clock, s'.clients, s'.history)
  {
    hide BusInv, AllOwned, Replayed, PairsInv, AnswersWrite;
    var s' := Apply(s, Return(c));
    var r := Finished(c, s.clients[c], s.clock, |s.bus.log|);
    assert ClientInv(Log(s), s.clock, c, s.clients[c]);
    forall d, k | d in s'.clients && 0 <= k < |s'.history| ensures BeforeJob(s'.history[k], d, s'.clients[d]) {
      assert ClientInv(Log(s), s.clock, d, s.clients[d]);
      if k < |s.history| {
        assert BeforeJob(s.history[k], d, s.clients[d]);
      }
    }
    forall d | d in s'.clients ensures NumbersInv(s'.history, d, s'.clients[d]) {
      ReturnNumbers(s.history, r, d, s.clients[d], s'.clients[d]);
    }
  }

  lemma ReturnNumbers(history: seq<Record>, r: Record, d: nat, cl: Client, cl': Client)
    requires NumbersInv(history, d, cl)
    requires cl'.next == cl.next || (cl'.next == cl.next + 1 && r.obs.id == OperationId(d, cl.next))
    ensures NumbersInv(history + [r], d, cl')
  {
    forall n: nat | n < cl'.next ensures HasRecord(history + [r], OperationId(d, n)) {
      if n < cl.next {
        var k :| 0 <= k < |history| && history[k].obs.id == OperationId(d, n);
        assert (history + [r])[k].obs.id == OperationId(d, n);
      } else {
        assert (history + [r])[|history|].obs.id == OperationId(d, n);
      }
    }
  }

  lemma ReturnOwned(s: State, c: nat)
    requires Inv(s) && Enabled(s, Return(c))
    ensures var s' := Apply(s, Return(c)); AllOwned(Log(s), s'.clients, s'.history)
  {
    hide BusInv, HistoryInv, ClientsInv;
    var s' := Apply(s, Return(c));
    forall p | 0 <= p < |Log(s)| ensures OwnedInv(Log(s), s'.clients, s'.history, p) {
      assert OwnedInv(Log(s), s.clients, s.history, p);
      if exists k :: 0 <= k < |s.history| && s.history[k].intention == Some(p) {
        var k :| 0 <= k < |s.history| && s.history[k].intention == Some(p);
        assert s'.history[k].intention == Some(p);
      } else if IsCounterWrite(Log(s)[p]) && Log(s)[p].body.id.client == c {
        assert s'.history[|s.history|].intention == Some(p);
      }
    }
  }

  lemma StepKeepsInv(s: State, step: Step)
    requires Inv(s) && Enabled(s, step)
    ensures Inv(Apply(s, step))
  {
    hide Inv, Apply;
    match step {
      case Tick => TickKeepsInv(s);
      case BusStep(b) => BusStepKeepsInv(s, b);
      case Invoke(c, op) => InvokeKeepsInv(s, c, op);
      case Submit(c) => SubmitKeepsInv(s, c);
      case CheckTail(c) => CheckTailKeepsInv(s, c);
      case Poll(c, upTo) => PollKeepsInv(s, c, upTo);
      case Return(c) => ReturnKeepsInv(s, c);
      case Retry(c) => RetryKeepsInv(s, c);
    }
  }

  lemma InitHasInv(s: State)
    requires Init(s)
    ensures Inv(s)
  {
  }

  lemma {:induction false} RunKeepsInv(states: seq<State>, steps: seq<Step>, i: nat)
    requires IsRun(states, steps) && i < |states|
    ensures Inv(states[i])
  {
    hide Inv, Apply, Init, Enabled;
    if i == 0 {
      InitHasInv(states[0]);
    } else {
      RunKeepsInv(states, steps, i - 1);
      StepKeepsInv(states[i - 1], steps[i - 1]);
    }
  }

  // ---- recorded times are those of the call and the return ----

  /** At step a the client invoked op, and nothing of it was invoked or returned since. */
  ghost predicate InvokedAt(states: seq<State>, steps: seq<Step>, a: nat, n: nat, c: nat, op: CounterOperation,
      time: nat)
    requires n <= |steps| < |states|
  {
    && a < n && steps[a] == Invoke(c, op) && states[a].clock == time
    && forall j :: a < j < n ==> steps[j] != Return(c) && !(steps[j].Invoke? && steps[j].client == c)
  }

  /** A step that is neither an invocation nor a return of c keeps what c is doing and since when. */
  lemma StepKeepsJob(s: State, step: Step, c: nat)
    requires Enabled(s, step) && c in s.clients && step != Return(c) && !(step.Invoke? && step.client == c)
    ensures var s' := Apply(s, step);
            && c in s'.clients && s'.clients[c].next == s.clients[c].next
            && s'.clients[c].job.Idle? == s.clients[c].job.Idle?
            && (!s.clients[c].job.Idle? ==>
                  s'.clients[c].job.op == s.clients[c].job.op && s'.clients[c].job.start == s.clients[c].job.start)
  {
    hide DR.Apply, ProcessEntry;
    if step.Poll? && step.client == c {
      PolledKeepsJob(s.clients[c], Log(s), step.upTo);
    }
  }

  lemma {:induction false} PolledKeepsJob(cl: Client, log: seq<Payload>, upTo: nat)
    requires cl.cursor <= upTo <= |log| && cl.job.Draining?
    ensures var cl' := Polled(cl, log, upTo);
            cl'.next == cl.next && cl'.job.Draining? && cl'.job.op == cl.job.op && cl'.job.start == cl.job.start
    decreases upTo - cl.cursor
  {
    hide ProcessEntry;
    if cl.cursor < upTo {
      var (view, done) := ProcessEntry(cl.view, cl.cursor, log[cl.cursor], cl.job.watched);
      PolledKeepsJob(cl.(cursor := cl.cursor + 1, last := cl.cursor, view := view,
                         job := cl.job.(found := Newer(cl.job.found, done))), log, upTo);
    }
  }

  lemma {:induction false} JobWasInvoked(states: seq<State>, steps: seq<Step>, n: nat, c: nat) returns (a: nat)
    requires IsRun(states, steps) && n <= |steps| && c in states[n].clients && !states[n].clients[c].job.Idle?
    ensures InvokedAt(states, steps, a, n, c, states[n].clients[c].job.op, states[n].clients[c].job.start)
  {
    hide Apply, Enabled;
    a := 0;
    if n > 0 {
      var step := steps[n - 1];
      if step.Invoke? && step.client == c {
        a := n - 1;
        InvokeStarts(states[n - 1], step);
      } else {
        ClientsStay(states[n - 1], step);
        ReturnIdles(states[n - 1], step, c);
        StepKeepsJob(states[n - 1], step, c);
        a := JobWasInvoked(states, steps, n - 1, c);
      }
    }
  }

  lemma InvokeStarts(s: State, step: Step)
    requires step.Invoke? && Enabled(s, step)
    ensures var job := Apply(s, step).clients[step.client].job; !job.Idle? && job.op == step.op && job.start == s.clock
  {
  }

  lemma ClientsStay(s: State, step: Step)
    requires Enabled(s, step)
    ensures Apply(s, step).clients.Keys == s.clients.Keys
  {
    hide DR.Apply, Polled;
  }

  lemma ReturnIdles(s: State, step: Step, c: nat)
    requires Enabled(s, step) && c in Apply(s, step).clients && !Apply(s, step).clients[c].job.Idle?
    ensures step != Return(c)
  {
  }

  /** Every recorded operation started when its client invoked it and ended when it returned: real-time
      precedence in the history is precedence in the run. */
  lemma {:induction false} RecordsAreTimed(states: seq<State>, steps: seq<Step>, n: nat, k: nat)
    returns (a: nat, b: nat)
    requires IsRun(states, steps) && n <= |steps| && k < |states[n].history|
    ensures var obs := states[n].history[k].obs;
            && a < b < n && steps[b] == Return(obs.id.client) && states[b].clock == obs.end
            && InvokedAt(states, steps, a, b, obs.id.client, obs.operation, obs.start)
  {
    hide Apply, Enabled;
    a, b := 0, 0;
    if n > 0 {
      var s, step := states[n - 1], steps[n - 1];
      HistoryStep(s, step);
      if k < |s.history| {
        a, b := RecordsAreTimed(states, steps, n - 1, k);
      } else {
        b := n - 1;
        ReturnRecords(s, step.client);
        a := JobWasInvoked(states, steps, n - 1, step.client);
      }
    }
  }

  lemma HistoryStep(s: State, step: Step)
    requires Enabled(s, step)
    ensures var s' := Apply(s, step);
            if step.Return? then |s'.history| == |s.history| + 1 && s'.history[..|s.history|] == s.history
            else s'.history == s.history
  {
    hide DR.Apply, Polled;
  }

  lemma ReturnRecords(s: State, c: nat)
    requires Enabled(s, Return(c))
    ensures var r := Apply(s, Return(c)).history[|s.history|];
            && c in s.clients && !s.clients[c].job.Idle?
            && r.obs.id == OperationId(c, s.clients[c].next) && r.obs.operation == s.clients[c].job.op
            && r.obs.start == s.clients[c].job.start && r.obs.end == s.clock
  {
  }

  // ---- the theorem ----

  /** No operation still in progress has been committed. */
  ghost predicate Settled(s: State) {
    forall c, p: nat, q :: c in s.clients && Pursues(s.clients[c].job, p) && 0 <= q < |s.bus.log| ==>
        !(s.bus.log[q].payload.Commit? && s.bus.log[q].payload.committed == p)
  }

  /** Tags respect the log lengths recorded around an operation. */
  lemma TagBounds(s: State, r: Record)
    requires RecordInv(Log(s), s.clock, r)
    ensures r.startLen <= r.obs.tag + 1 <= r.endLen
    ensures r.obs.operation.IsWrite() ==> r.startLen < r.obs.tag
  {
  }

  /** Precedence in the history implies tag order. */
  lemma PrecedesIsTagOrder(s: State, a: Record, b: Record)
    requires RecordInv(Log(s), s.clock, a) && RecordInv(Log(s), s.clock, b) && Ordered(a, b) && Ordered(b, a)
    requires Precedes(a.obs, b.obs)
    ensures TagBefore(a.obs, b.obs)
  {
    hide RecordInv, Log;
    TagBounds(s, a);
    TagBounds(s, b);
    RecordTimes(s, a);
    RecordTimes(s, b);
  }

  lemma HistoryIsWellFormed(s: State)
    requires Inv(s)
    ensures WellFormed(Observations(s.history))
  {
    hide BusInv, AllOwned, RecordInv, ClientInv, Log;
    var obs := Observations(s.history);
    forall k | 0 <= k < |obs| ensures obs[k].start <= obs[k].end {
      RecordTimes(s, s.history[k]);
    }
    forall i, j | 0 <= i < j < |obs| ensures obs[i].id != obs[j].id {
      assert Ordered(s.history[i], s.history[j]);
    }
    forall i, j | 0 <= i < |obs| && 0 <= j < |obs| && obs[i].id.client == obs[j].id.client
        && obs[i].id.sequence < obs[j].id.sequence
      ensures obs[i].end <= obs[j].start
    {
      assert Ordered(s.history[i], s.history[j]);
    }
    forall i | 0 <= i < |obs| && 0 < obs[i].id.sequence
      ensures Has(obs, OperationId(obs[i].id.client, obs[i].id.sequence - 1)) {
      var c := obs[i].id.client;
      assert BeforeJob(s.history[i], c, s.clients[c]) && NumbersInv(s.history, c, s.clients[c]);
      var k :| 0 <= k < |s.history| && s.history[k].obs.id == OperationId(c, obs[i].id.sequence - 1);
      assert obs[k].id == OperationId(c, obs[i].id.sequence - 1);
    }
  }

  lemma TagOrderIsPermutation(obs: seq<CounterObservation>, order: seq<CounterObservation>)
    requires Distinct(obs) && IsTagOrder(obs, order)
    ensures IsPermutation(obs, Ids(order)) && Known(ById(obs), Ids(order))
    ensures forall k :: 0 <= k < |order| ==> ById(obs)[Ids(order)[k]] == order[k]
  {
    hide Distinct, TagBefore, ById;
    forall k | 0 <= k < |order| ensures order[k].id in ById(obs) && ById(obs)[order[k].id] == order[k] {
      ByIdLookup(obs, order[k]);
    }
    forall k | 0 <= k < |obs| ensures obs[k].id in Ids(order) {
      assert obs[k] in order;
      var i :| 0 <= i < |order| && order[i] == obs[k];
      assert Ids(order)[i] == obs[k].id;
    }
    forall i, j | 0 <= i < j < |order| ensures order[i].id != order[j].id {
      TagOrderIsStrict(order[i], order[j]);
    }
  }

  lemma TagOrderIsStrict(a: CounterObservation, b: CounterObservation)
    requires TagBefore(a, b)
    ensures a != b && !TagBefore(b, a)
  {
  }

  /** Everything known about the observations of a settled state and their tag order. */
  ghost predicate Sorted(s: State, order: seq<CounterObservation>) {
    Inv(s) && Settled(s) && WellFormed(Observations(s.history)) && IsTagOrder(Observations(s.history), order)
  }

  lemma RecordOf(s: State, order: seq<CounterObservation>, k: nat) returns (n: nat)
    requires Sorted(s, order) && k < |order|
    ensures n < |s.history| && s.history[n].obs == order[k] && RecordInv(Log(s), s.clock, s.history[n])
  {
    hide BusInv, ClientsInv, AllOwned, RecordInv, TagBefore, WellFormed;
    assert order[k] in Observations(s.history);
    n :| 0 <= n < |s.history| && Observations(s.history)[n] == order[k];
  }

  lemma TagOrderRespects(s: State, order: seq<CounterObservation>)
    requires Sorted(s, order) && Known(ById(Observations(s.history)), Ids(order))
    requires forall k :: 0 <= k < |order| ==> ById(Observations(s.history))[Ids(order)[k]] == order[k]
    ensures Respects(ById(Observations(s.history)), Ids(order))
  {
    hide BusInv, ClientsInv, AllOwned, RecordInv, TagBefore, WellFormed, Precedes, Log, ById;
    forall i, j | 0 <= i < j < |order| ensures !Precedes(order[j], order[i]) {
      var a := RecordOf(s, order, i);
      var b := RecordOf(s, order, j);
      TagOrderIsStrict(order[i], order[j]);
      if Precedes(order[j], order[i]) {
        PrecedesIsTagOrder(s, s.history[b], s.history[a]);
      }
    }
  }

  /** Every committed counter write is the tag of a finished write. */
  lemma EffectHasRecord(s: State, q: nat) returns (n: nat)
    requires Inv(s) && Settled(s) && GoodLog(Log(s)) && q < |Log(s)| && EffectOf(Log(s), q) != Read
    ensures n < |s.history| && s.history[n].obs.tag == q && s.history[n].obs.operation.IsWrite()
  {
    hide BusInv, ClientsInv, Replayed, PairsInv;
    var p := Log(s)[q].committed;
    assert OwnedInv(Log(s), s.clients, s.history, p);
    assert s.bus.log[q].payload.committed == p;
    n :| 0 <= n < |s.history| && s.history[n].intention == Some(p);
    assert RecordInv(Log(s), s.clock, s.history[n]);
    assert Log(s)[q].Decides(p) && Log(s)[s.history[n].obs.tag].Decides(p);
  }

  function TagBelow(order: seq<CounterObservation>, k: nat): int
    requires k <= |order|
  {
    if k == 0 then -1 else order[k - 1].tag
  }

  /** Between neighbouring tags the log has no effect on the counter. */
  lemma NoEffectBetween(s: State, order: seq<CounterObservation>, k: nat, q: nat)
    requires Sorted(s, order) && GoodLog(Log(s)) && k < |order| && q < |Log(s)|
    requires TagBelow(order, k) < q < order[k].tag
        || (TagBelow(order, k) < q == order[k].tag && !order[k].operation.IsWrite())
    ensures EffectOf(Log(s), q) == Read
  {
    hide BusInv, ClientsInv, HistoryInv, AllOwned, GoodLog, WellFormed, EffectOf, Settled, Log;
    if EffectOf(Log(s), q) != Read {
      var n := EffectHasRecord(s, q);
      assert Observations(s.history)[n] in order;
      var i :| 0 <= i < |order| && order[i] == s.history[n].obs;
      TagGap(order, k, i);
    }
  }

  lemma TagGap(order: seq<CounterObservation>, k: nat, i: nat)
    requires TagSorted(order) && k < |order| && i < |order| && order[i].operation.IsWrite()
    ensures !(TagBelow(order, k) < order[i].tag < order[k].tag)
    ensures !order[k].operation.IsWrite() ==> !(TagBelow(order, k) < order[i].tag == order[k].tag)
  {
    if i < k - 1 {
      assert TagBefore(order[i], order[k - 1]);
    } else if k < i {
      assert TagBefore(order[k], order[i]);
    }
  }

  /** Distinct writes have distinct tags. */
  lemma WriteTagsDiffer(s: State, order: seq<CounterObservation>, k: nat)
    requires Sorted(s, order) && 0 < k < |order| && order[k].operation.IsWrite()
    ensures order[k - 1].tag < order[k].tag
  {
    hide BusInv, ClientsInv, AllOwned, Replayed, HistoryInv;
    assert TagBefore(order[k - 1], order[k]);
    if order[k - 1].tag == order[k].tag {
      var a := RecordOf(s, order, k - 1);
      var b := RecordOf(s, order, k);
      SameTagSameWrite(s, a, b);
    }
  }

  lemma SameTagSameWrite(s: State, a: nat, b: nat)
    requires Inv(s) && a < |s.history| && b < |s.history|
    requires RecordInv(Log(s), s.clock, s.history[a]) && RecordInv(Log(s), s.clock, s.history[b])
    requires s.history[a].obs.tag == s.history[b].obs.tag && s.history[a].obs.operation.IsWrite()
        && s.history[b].obs.operation.IsWrite()
    ensures a == b
  {
    hide BusInv, ClientsInv, AllOwned, Replayed, HistoryInv;
    if a != b {
      RecordsOrdered(s, a, b);
    }
  }

  lemma RecordsOrdered(s: State, a: nat, b: nat)
    requires Inv(s) && a < |s.history| && b < |s.history| && a != b
    ensures Ordered(s.history[a], s.history[b])
  {
    hide BusInv, ClientsInv, AllOwned, Ordered, RecordInv;
  }

  /** Value of the counter after the log up to the tag below the k-th operation. */
  ghost function ValueBefore(s: State, order: seq<CounterObservation>, k: nat): int
    requires k <= |order|
  {
    var n := TagBelow(order, k) + 1;
    if 0 <= n <= |Log(s)| then Replayed(Log(s), n).value else 0
  }

  lemma TagInLog(s: State, order: seq<CounterObservation>, k: nat)
    requires Sorted(s, order) && k <= |order|
    ensures 0 <= TagBelow(order, k) + 1 <= |Log(s)|
  {
    hide Sorted, Log, RecordInv;
    if k > 0 {
      var n := RecordOf(s, order, k - 1);
      TagBounds(s, s.history[n]);
      RecordTimes(s, s.history[n]);
    }
  }

  /** Replaying one more operation of the tag order produces its observed output. */
  lemma ReplayStep(s: State, order: seq<CounterObservation>, k: nat)
    requires k < |order|
    requires 0 <= TagBelow(order, k) + 1 <= |Log(s)| && 0 <= TagBelow(order, k + 1) + 1 <= |Log(s)|
    requires Sorted(s, order) && GoodLog(Log(s))
    ensures VerifyAndApply(ValueBefore(s, order, k), order[k].operation, order[k].output)
        == Some(ValueBefore(s, order, k + 1))
  {
    hide Sorted, GoodLog, Log, RecordInv, Replayed, EffectOf, TagBefore;
    var log, lo, t := Log(s), TagBelow(order, k) + 1, order[k].tag;
    var n := RecordOf(s, order, k);
    TagsAscend(s, order, k);
    if order[k].operation.IsWrite() {
      forall q | lo <= q < t ensures EffectOf(log, q) == Read {
        NoEffectBetween(s, order, k, q);
      }
      ValueConstant(log, lo, t);
      ValueStep(log, t);
      WriteOutput(s, s.history[n]);
    } else {
      forall q | lo <= q < t + 1 ensures EffectOf(log, q) == Read {
        NoEffectBetween(s, order, k, q);
      }
      ValueConstant(log, lo, t + 1);
      ReadOutput(s, s.history[n]);
    }
  }

  lemma TagsAscend(s: State, order: seq<CounterObservation>, k: nat)
    requires Sorted(s, order) && k < |order|
    ensures TagBelow(order, k) <= order[k].tag
    ensures order[k].operation.IsWrite() ==> TagBelow(order, k) < order[k].tag < |Log(s)|
    ensures -1 <= order[k].tag < |Log(s)|
  {
    hide BusInv, ClientsInv, AllOwned, Replayed, HistoryInv, WellFormed;
    var n := RecordOf(s, order, k);
    TagBounds(s, s.history[n]);
    if 0 < k {
      assert TagBefore(order[k - 1], order[k]);
      if order[k].operation.IsWrite() {
        WriteTagsDiffer(s, order, k);
      }
    }
  }

  lemma WriteOutput(s: State, r: Record)
    requires RecordInv(Log(s), s.clock, r) && r.obs.operation.IsWrite()
    ensures var log, t := Log(s), r.obs.tag;
            && 0 <= t < |log|
            && (r.obs.output == Denied ==> EffectOf(log, t) == Read)
            && (r.obs.output != Denied ==>
                EffectOf(log, t) == r.obs.operation && r.obs.output == Value(Replayed(log, t + 1).value))
  {
    hide Replayed;
  }

  lemma ReadOutput(s: State, r: Record)
    requires RecordInv(Log(s), s.clock, r) && !r.obs.operation.IsWrite()
    ensures 0 <= r.obs.tag + 1 <= |Log(s)| && r.obs.output == Value(Replayed(Log(s), r.obs.tag + 1).value)
        && r.obs.operation == Read
  {
    hide Replayed;
  }

  lemma {:induction false} ReplayFrom(s: State, order: seq<CounterObservation>, k: nat)
    requires k <= |order| && 0 <= TagBelow(order, k) + 1 <= |Log(s)|
    requires Known(ById(Observations(s.history)), Ids(order))
    requires forall i :: 0 <= i < |order| ==> ById(Observations(s.history))[Ids(order)[i]] == order[i]
    requires Sorted(s, order) && GoodLog(Log(s))
    ensures Replay(ById(Observations(s.history)), Ids(order)[k..], ValueBefore(s, order, k), VerifyAndApply).Some?
    decreases |order| - k
  {
    hide Sorted, GoodLog, Log, ValueBefore, ById, VerifyAndApply;
    if k < |order| {
      TagInLog(s, order, k + 1);
      ReplayStep(s, order, k);
      ReplayFrom(s, order, k + 1);
      assert Ids(order)[k..][1..] == Ids(order)[k + 1..] && Ids(order)[k..][0] == Ids(order)[k];
    }
  }

  /** In every settled state of every run the tag order is a linearization of the history. */
  lemma CounterIsLinearizable(states: seq<State>, steps: seq<Step>, i: nat, order: seq<CounterObservation>)
    requires IsRun(states, steps) && i < |states| && Settled(states[i])
    requires IsTagOrder(Observations(states[i].history), order)
    ensures IsLinearization(Observations(states[i].history), Ids(order), 0, VerifyAndApply)
    ensures var m, ids := ById(Observations(states[i].history)), Ids(order);
            Known(m, ids) && forall k :: 0 <= k < |ids| ==> CountsAt(m, ids, k)
  {
    hide IsRun, Settled, WellFormed, IsTagOrder, GoodLog, Log, Respects, IsPermutation, Known, ById, ClientsInv,
        HistoryInv, AllOwned, BusInv, VerifyAndApply;
    var s := states[i];
    RunKeepsInv(states, steps, i);
    HistoryIsWellFormed(s);
    DistinctOf(Observations(s.history));
    LogIsGood(s);
    TagOrderIsPermutation(Observations(s.history), order);
    TagOrderRespects(s, order);
    StartValue(s, order);
    ReplayFrom(s, order, 0);
    assert Ids(order)[0..] == Ids(order);
    ReplayCounts(ById(Observations(s.history)), Ids(order));
  }

  lemma DistinctOf(obs: seq<CounterObservation>)
    requires WellFormed(obs)
    ensures Distinct(obs)
  {
  }

  lemma LogIsGood(s: State)
    requires BusInv(s.bus)
    ensures GoodLog(Log(s))
  {
    BusLogIsGood(s.bus);
  }

  lemma StartValue(s: State, order: seq<CounterObservation>)
    ensures 0 <= TagBelow(order, 0) + 1 <= |Log(s)| && ValueBefore(s, order, 0) == 0
  {
  }

  // ---- the evidence in the log ----

  /** A successful write is backed by the command its tag committed. */
  lemma RecordHasCommand(s: State, r: Record)
    requires RecordInv(Log(s), s.clock, r) && Succeeded(r.obs) && GoodLog(Log(s))
    ensures 0 <= r.obs.tag < |Log(s)|
    ensures CommandAt(Log(s), r.obs.tag) == Some(LoggedCommand(r.obs.id, r.obs.operation, r.obs.tag))
  {
    hide Replayed, GoodLog, CommandAt;
    WriteOutput(s, r);
    CommandIsEffect(Log(s), r.obs.tag);
    assert Log(s)[r.obs.tag].Decides(r.intention.value);
  }

  /** A committed write's record reports success. */
  lemma CommandHasRecord(s: State, q: nat) returns (n: nat)
    requires Inv(s) && Settled(s) && GoodLog(Log(s)) && q < |Log(s)| && CommandAt(Log(s), q).Some?
    ensures n < |s.history| && s.history[n].obs.tag == q && Succeeded(s.history[n].obs)
    ensures RecordInv(Log(s), s.clock, s.history[n])
  {
    hide Replayed, GoodLog, CommandAt, BusInv, ClientsInv, AllOwned, Settled, PairsInv, RecordInv;
    CommandIsEffect(Log(s), q);
    n := EffectHasRecord(s, q);
    assert RecordInv(Log(s), s.clock, s.history[n]);
    WriteOutput(s, s.history[n]);
  }

  lemma TagsAreDistinct(s: State)
    requires Inv(s)
    ensures DistinctTags(Observations(s.history))
  {
    hide BusInv, ClientsInv, AllOwned, PairsInv, RecordInv;
    var obs := Observations(s.history);
    forall i, j | 0 <= i < j < |obs| && Succeeded(obs[i]) && Succeeded(obs[j])
      ensures obs[i].tag != obs[j].tag
    {
      if obs[i].tag == obs[j].tag {
        SameTagSameWrite(s, i, j);
      }
    }
  }

  /** Every settled run leaves the evidence the harness asks for: the clients' records of committed commands
      are equal and list exactly the successful writes, in tag order. */
  lemma EvidenceHolds(s: State, histories: seq<seq<LoggedCommand>>)
    requires Inv(s) && Settled(s) && histories != []
    requires forall i :: 0 <= i < |histories| ==> histories[i] == Commands(Log(s), |Log(s)|)
    ensures Evidence(Observations(s.history), histories)
  {
    hide BusInv, ClientsInv, AllOwned, PairsInv, RecordInv, GoodLog, CommandAt, Settled, Commands, DistinctTags,
        Ascending, Succeeded;
    var log, obs := Log(s), Observations(s.history);
    LogIsGood(s);
    TagsAreDistinct(s);
    CommandsMeaning(log, |log|);
    forall o | o in obs && Succeeded(o)
      ensures HasCommand(histories[0], o)
    {
      var k :| 0 <= k < |obs| && obs[k] == o;
      assert RecordInv(log, s.clock, s.history[k]);
      RecordHasCommand(s, s.history[k]);
      assert Backs(CommandAt(log, o.tag).value, o);
    }
    forall c | c in histories[0]
      ensures HasWrite(obs, c)
    {
      var n := CommandHasRecord(s, c.position);
      RecordHasCommand(s, s.history[n]);
      assert obs[n] in obs && Backs(c, obs[n]);
    }
  }

  /** The test harness's verdict on a settled run with its log drained by `clients` clients: the log evidence
      holds and the candidate built from the tags is accepted. */
  method CheckRun(ghost states: seq<State>, ghost steps: seq<Step>, ghost i: nat, log: seq<Payload>, clients: nat,
      obs: seq<CounterObservation>)
    returns (ok: bool)
    requires IsRun(states, steps) && i < |states| && Settled(states[i]) && clients > 0
    requires log == Log(states[i]) && obs == Observations(states[i].history)
    ensures ok
  {
    hide IsRun, Settled, Inv, IsLinearization, IsTagOrder, WellFormed, Evidence;
    RunKeepsInv(states, steps, i);
    HistoryIsWellFormed(states[i]);
    DistinctOf(obs);
    var histories: seq<seq<LoggedCommand>> := [];
    for c := 0 to clients
      invariant |histories| == c && forall k :: 0 <= k < c ==> histories[k] == Commands(log, |log|)
    {
      var commands := CommandHistory(log);
      histories := histories + [commands];
    }
    EvidenceHolds(states[i], histories);
    var backed := VerifyLogEvidence(obs, histories);
    var candidate, order := CandidateFromOrderedTags(obs);
    CounterIsLinearizable(states, steps, i, order);
    var accepted := Verify(obs, candidate, 0, VerifyAndApply);
    ok := backed && accepted;
  }
}

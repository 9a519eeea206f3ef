/** The simulator's deterministic executor: ready events, sleeping tasks, blocked tasks and a wake queue,
    driven by a logical clock. What futures do when polled, and the random draws, are parameters. */
module Executor {
  import opened Bus

  datatype Task = Task(sequence: nat, target: Option<nat>)

  /** The history of a run. `Polled` marks the start of a poll, `popped` whether the task came off the sleeps. */
  datatype Event = Polled(task: Task, time: nat, popped: bool) | Woke(id: nat) | Finished(id: nat)

  /** What a future may do to the executor while it is polled. */
  datatype Effect = Spawn | Sleep(duration: nat) | Wake(id: nat)
  datatype PollOutcome = PollOutcome(effects: seq<Effect>, pending: bool)

  datatype RunResult = Stats(polls: nat, totalEvents: nat, finalBlocked: nat) | IterationLimit

  const MAX_ITERATIONS := 100_000

  datatype View = View(events: seq<Task>, sleeps: seq<Task>, blocked: map<nat, Task>, wakes: seq<nat>, clock: nat,
      next: nat, trace: seq<Event>)

  // ---- order of sleeps ----

  predicate Before(a: Task, b: Task) {
    a.target.Some? && b.target.Some?
        && (a.target.value < b.target.value || (a.target == b.target && a.sequence < b.sequence))
  }

  /** The sleep heap as the sequence it pops: ascending by target, then sequence. */
  predicate Ascending(s: seq<Task>) {
    forall i, j :: 0 <= i < j < |s| ==> Before(s[i], s[j])
  }

  function Push(s: seq<Task>, t: Task): seq<Task> {
    if s == [] || Before(t, s[0]) then [t] + s else [s[0]] + Push(s[1..], t)
  }

  lemma {:induction false} PushMembers(s: seq<Task>, t: Task, x: Task)
    ensures x in Push(s, t) <==> x == t || x in s
  {
    if s != [] && !Before(t, s[0]) {
      PushMembers(s[1..], t, x);
      assert s == [s[0]] + s[1..];
    }
  }

  lemma {:induction false} PushAscends(s: seq<Task>, t: Task)
    requires Ascending(s) && t.target.Some? && forall x :: x in s ==> x.target.Some? && x.sequence != t.sequence
    ensures Ascending(Push(s, t))
  {
    if s == [] {
    } else if Before(t, s[0]) {
      assert forall j :: 0 < j < |s| ==> Before(s[0], s[j]);
    } else {
      PushAscends(s[1..], t);
      var rest := Push(s[1..], t);
      forall j | 0 <= j < |rest|
        ensures Before(s[0], rest[j])
      {
        PushMembers(s[1..], t, rest[j]);
      }
    }
  }

  // ---- where a task is ----

  ghost predicate Has(s: seq<Task>, w: nat) {
    exists t :: t in s && t.sequence == w
  }

  ghost predicate NoDuplicates(s: seq<Task>) {
    forall i, j :: 0 <= i < j < |s| ==> s[i].sequence != s[j].sequence
  }

  ghost predicate Done(trace: seq<Event>, w: nat) {
    Finished(w) in trace
  }

  function Bit(b: bool): nat { if b then 1 else 0 }

  /** In how many places task w is; `running` is the task being polled. */
  ghost function Places(v: View, running: Option<Task>, w: nat): nat {
    Bit(Has(v.events, w)) + Bit(Has(v.sleeps, w)) + Bit(w in v.blocked) + Bit(running.Some?
        && running.value.sequence == w) + Bit(Done(v.trace, w))
  }

  /** Every spawned task is in exactly one place, once; nothing else is anywhere. */
  ghost predicate Placed(v: View, running: Option<Task>) {
    && (forall w: nat :: Places(v, running, w) == Bit(w < v.next))
    && NoDuplicates(v.events) && NoDuplicates(v.sleeps)
    && (forall w :: w in v.blocked ==> v.blocked[w].sequence == w)
  }

  // ---- time ----

  ghost predicate IsPop(e: Event) {
    e.Polled? && e.popped
  }

  /** The clock has not passed a pending sleep, and all that popped comes before all that sleeps. */
  ghost predicate Timed(v: View) {
    && Ascending(v.sleeps)
    && (forall t :: t in v.sleeps ==> t.target.Some? && v.clock <= t.target.value)
    && (forall e :: e in v.trace && IsPop(e) ==>
        e.task.target == Some(e.time) && e.time <= v.clock && e.task.sequence < v.next)
    && (forall e, t :: e in v.trace && IsPop(e) && t in v.sleeps ==> Before(e.task, t))
  }

  /** Sleeps popped in strictly increasing (target, sequence) order, each at its target. */
  ghost predicate PoppedInOrder(trace: seq<Event>) {
    forall i, j :: 0 <= i < j < |trace| && IsPop(trace[i]) && IsPop(trace[j]) ==> Before(trace[i].task, trace[j].task)
  }

  ghost predicate PolledBefore(trace: seq<Event>, w: nat) {
    exists e :: e in trace && e.Polled? && e.task.sequence == w
  }

  /** The first poll of a sleep task happens exactly at its target. */
  ghost predicate OnTime(trace: seq<Event>) {
    forall i ::
        0 <= i < |trace| && trace[i].Polled? && trace[i].task.target.Some?
        && !PolledBefore(trace[..i], trace[i].task.sequence) ==>
      trace[i].time == trace[i].task.target.value
  }

  /** Sleeps were never polled; sleep tasks elsewhere were. */
  ghost predicate FirstPolls(v: View, running: Option<Task>) {
    && (forall t :: t in v.sleeps ==> !PolledBefore(v.trace, t.sequence))
    && (forall t :: t in v.events && t.target.Some? ==> PolledBefore(v.trace, t.sequence))
    && (forall w :: w in v.blocked && v.blocked[w].target.Some? ==> PolledBefore(v.trace, v.blocked[w].sequence))
    && (running.Some? ==> PolledBefore(v.trace, running.value.sequence))
    && (forall w: nat :: PolledBefore(v.trace, w) ==> w < v.next)
  }

  // ---- wakes ----

  /** A wake of w was raised after the last poll of w began. */
  ghost predicate Unserved(trace: seq<Event>, w: nat) {
    trace != [] &&
    var e := trace[|trace| - 1];
    e == Woke(w) || (!(e.Polled? && e.task.sequence == w) && Unserved(trace[..|trace| - 1], w))
  }

  /** An unserved wake is still going to lead to a poll. */
  ghost predicate WakesKept(v: View) {
    forall w: nat :: Unserved(v.trace, w) ==>
        w < v.next && (Done(v.trace, w) || Has(v.events, w) || Has(v.sleeps, w) || w in v.wakes)
  }

  ghost predicate Inv(v: View, running: Option<Task>) {
    Placed(v, running) && Timed(v) && PoppedInOrder(v.trace) && OnTime(v.trace) && FirstPolls(v, running)
        && WakesKept(v)
  }

  // ---- the executor's own steps, on values ----

  function Spawned(v: View): View {
    v.(events := v.events + [Task(v.next, None)], next := v.next + 1)
  }

  function SpawnedAfter(v: View, duration: nat): View {
    v.(sleeps := Push(v.sleeps, Task(v.next, Some(v.clock + duration))), next := v.next + 1)
  }

  function Woken(v: View, w: nat): View {
    v.(wakes := v.wakes + [w], trace := v.trace + [Woke(w)])
  }

  /** One pass of the wake loop. */
  function Unblocked(v: View): View
    requires v.wakes != []
  {
    var w := v.wakes[0];
    var v' := v.(wakes := v.wakes[1..]);
    if w in v.blocked then v'.(events := v.events + [v.blocked[w]], blocked := v.blocked - {w}) else v'
  }

  function SwapRemoved(s: seq<Task>, i: nat): seq<Task>
    requires i < |s|
  {
    s[i := s[|s| - 1]][..|s| - 1]
  }

  function Advanced(clock: nat, target: nat): nat {
    if target > clock then target else clock
  }

  function TakeEvent(v: View, i: nat, time: nat): View
    requires i < |v.events|
  {
    var clock := Advanced(v.clock, time);
    v.(events := SwapRemoved(v.events, i), clock := clock, trace := v.trace + [Polled(v.events[i], clock, false)])
  }

  function TakeSleep(v: View): View
    requires v.sleeps != [] && v.sleeps[0].target.Some?
  {
    var clock := Advanced(v.clock, v.sleeps[0].target.value);
    v.(sleeps := v.sleeps[1..], clock := clock, trace := v.trace + [Polled(v.sleeps[0], clock, true)])
  }

  function Settle(v: View, task: Task, pending: bool): View {
    if pending then v.(blocked := v.blocked[task.sequence := task])
        else v.(trace := v.trace + [Finished(task.sequence)])
  }

  /** What one effect of a polled future does; wakers exist only for spawned tasks. */
  function Affected(v: View, e: Effect): View {
    match e
    case Spawn => Spawned(v)
    case Sleep(duration) => SpawnedAfter(v, duration)
    case Wake(w) => if w < v.next then Woken(v, w) else v
  }

  /** The first n effects, in order. */
  function Performed(v: View, effects: seq<Effect>, n: nat): View
    requires n <= |effects|
  {
    if n == 0 then v else Affected(Performed(v, effects, n - 1), effects[n - 1])
  }

  /** The wake queue served to its end. */
  function Served(v: View): View
    decreases |v.wakes|
  {
    if v.wakes == [] then v else Served(Unblocked(v))
  }

  /** The first sleep is due strictly before the next event, or there is no event. */
  predicate SleepFirst(v: View, jitter: nat) {
    v.sleeps != [] && v.sleeps[0].target.Some? && (v.events == [] || v.sleeps[0].target.value < v.clock + jitter)
  }

  /** The rest of an iteration: select, advance the clock, poll, put the task away. */
  function Iterated(v: View, jitter: nat, choice: nat, outcome: PollOutcome): View {
    if SleepFirst(v, jitter) then
      Settle(Performed(TakeSleep(v), outcome.effects, |outcome.effects|), v.sleeps[0], outcome.pending)
    else if v.events != [] then
      var i := choice % |v.events|;
      Settle(Performed(TakeEvent(v, i, v.clock + jitter), outcome.effects, |outcome.effects|), v.events[i],
          outcome.pending)
    else v
  }

  /** n iterations of the run loop. */
  function After(v: View, jitters: nat -> nat, choices: nat -> nat, outcomes: nat -> PollOutcome, n: nat): View {
    if n == 0 then v
    else
      var before := After(v, jitters, choices, outcomes, n - 1);
      Iterated(Served(before), jitters(n - 1), choices(n - 1), outcomes(n - 1))
  }

  // ---- each step keeps the invariant ----

  lemma HasAppend(s: seq<Task>, t: Task, w: nat)
    ensures Has(s + [t], w) <==> Has(s, w) || t.sequence == w
  {
    assert t in s + [t];
    if Has(s, w) {
      var x :| x in s && x.sequence == w;
      assert x in s + [t];
    }
  }

  lemma HasPush(s: seq<Task>, t: Task, w: nat)
    ensures Has(Push(s, t), w) <==> Has(s, w) || t.sequence == w
  {
    PushMembers(s, t, t);
    if Has(s, w) {
      var x :| x in s && x.sequence == w;
      PushMembers(s, t, x);
    }
    if Has(Push(s, t), w) {
      var x :| x in Push(s, t) && x.sequence == w;
      PushMembers(s, t, x);
    }
  }

  lemma {:induction false} PushNoDuplicates(s: seq<Task>, t: Task)
    requires NoDuplicates(s) && !Has(s, t.sequence)
    ensures NoDuplicates(Push(s, t))
  {
    if s == [] {
    } else if Before(t, s[0]) {
      assert forall j :: 0 <= j < |s| ==> s[j] in s;
    } else {
      assert !Has(s[1..], t.sequence) by {
        assert forall x :: x in s[1..] ==> x in s;
      }
      PushNoDuplicates(s[1..], t);
      var rest := Push(s[1..], t);
      forall j | 0 <= j < |rest|
        ensures rest[j].sequence != s[0].sequence
      {
        PushMembers(s[1..], t, rest[j]);
        assert s[0] in s;
      }
    }
  }

  lemma SpawnPlaces(v: View, running: Option<Task>)
    requires Placed(v, running)
    ensures Placed(Spawned(v), running)
  {
    hide Has, Done;
    var t := Task(v.next, None);
    var v' := Spawned(v);
    forall w: nat
      ensures Places(v', running, w) == Bit(w < v'.next)
    {
      assert Places(v, running, w) == Bit(w < v.next);
      HasAppend(v.events, t, w);
    }
    forall i | 0 <= i < |v.events|
      ensures v.events[i].sequence != v.next
    {
      assert Places(v, running, v.next) == 0;
      HasMember(v.events, i);
    }
  }

  lemma HasMember(s: seq<Task>, i: nat)
    requires i < |s|
    ensures Has(s, s[i].sequence)
  {
  }

  lemma SleepPlaces(v: View, running: Option<Task>, duration: nat)
    requires Placed(v, running)
    ensures Placed(SpawnedAfter(v, duration), running)
  {
    hide Has, Done, Push;
    var t := Task(v.next, Some(v.clock + duration));
    var v' := SpawnedAfter(v, duration);
    forall w: nat
      ensures Places(v', running, w) == Bit(w < v'.next)
    {
      assert Places(v, running, w) == Bit(w < v.next);
      HasPush(v.sleeps, t, w);
    }
    assert Places(v, running, v.next) == 0;
    PushNoDuplicates(v.sleeps, t);
  }

  lemma SpawnKeepsInv(v: View, running: Option<Task>)
    requires Inv(v, running)
    ensures Inv(Spawned(v), running)
  {
    hide Placed, Ascending, PoppedInOrder, OnTime, Unserved, PolledBefore, Done, Has;
    SpawnPlaces(v, running);
    forall w: nat | Unserved(v.trace, w) && Has(v.events, w)
      ensures Has(Spawned(v).events, w)
    {
      HasAppend(v.events, Task(v.next, None), w);
    }
  }

  lemma SleepTimed(v: View, running: Option<Task>, duration: nat)
    requires Timed(v) && Placed(v, running)
    ensures Timed(SpawnedAfter(v, duration))
  {
    hide Push, Done, PoppedInOrder, Ascending;
    var t := Task(v.next, Some(v.clock + duration));
    assert Places(v, running, v.next) == 0;
    PushAscends(v.sleeps, t);
    forall x | x in Push(v.sleeps, t)
      ensures x == t || x in v.sleeps
    {
      PushMembers(v.sleeps, t, x);
    }
  }

  lemma SleepKeepsInv(v: View, running: Option<Task>, duration: nat)
    requires Inv(v, running)
    ensures Inv(SpawnedAfter(v, duration), running)
  {
    hide Placed, Timed, PoppedInOrder, OnTime, Unserved, PolledBefore, Done, Has, Push;
    SleepPlaces(v, running, duration);
    SleepTimed(v, running, duration);
    var t := Task(v.next, Some(v.clock + duration));
    forall x | x in Push(v.sleeps, t)
      ensures !PolledBefore(v.trace, x.sequence)
    {
      PushMembers(v.sleeps, t, x);
    }
    forall w | Has(v.sleeps, w)
      ensures Has(Push(v.sleeps, t), w)
    {
      HasPush(v.sleeps, t, w);
    }
  }

  lemma TraceAppend(trace: seq<Event>, e: Event)
    ensures (trace + [e])[..|trace|] == trace
    ensures forall x :: x in trace + [e] <==> x in trace || x == e
    ensures forall w :: PolledBefore(trace + [e], w) <==> PolledBefore(trace, w) || (e.Polled? && e.task.sequence == w)
    ensures forall w :: Unserved(trace + [e], w) <==>
        e == Woke(w) || (!(e.Polled? && e.task.sequence == w) && Unserved(trace, w))
  {
    assert (trace + [e])[..|trace|] == trace;
    assert forall x :: x in trace + [e] <==> x in trace || x == e;
  }

  /** Appending an event that is not a poll leaves the record of polls as it was. */
  lemma QuietAppend(v: View, running: Option<Task>, e: Event)
    requires !e.Polled? && Timed(v) && PoppedInOrder(v.trace) && OnTime(v.trace) && FirstPolls(v, running)
    ensures var v' := v.(trace := v.trace + [e]);
        Timed(v') && PoppedInOrder(v'.trace) && OnTime(v'.trace)
        && FirstPolls(v', running)
  {
    hide PolledBefore, Unserved, Ascending;
    TraceAppend(v.trace, e);
    var trace' := v.trace + [e];
    forall i | 0 <= i < |trace'| && trace'[i].Polled?
      ensures trace'[i] == v.trace[i] && trace'[..i] == v.trace[..i]
    {
    }
  }

  lemma WakeKeepsInv(v: View, running: Option<Task>, w: nat)
    requires Inv(v, running) && w < v.next
    ensures Inv(Woken(v, w), running)
  {
    hide PolledBefore, Unserved, Ascending, PoppedInOrder, OnTime, Has, Timed, FirstPolls;
    TraceAppend(v.trace, Woke(w));
    QuietAppend(v, running, Woke(w));
    var v' := Woken(v, w);
    assert Timed(v') && FirstPolls(v', running) by {
      WakesAside(v.(trace := v.trace + [Woke(w)]), running, v'.wakes);
    }
    forall x: nat
      ensures Places(v', running, x) == Bit(x < v'.next)
    {
      assert Places(v, running, x) == Bit(x < v.next);
    }
  }

  lemma WakesAside(v: View, running: Option<Task>, wakes: seq<nat>)
    ensures Timed(v.(wakes := wakes)) == Timed(v) && FirstPolls(v.(wakes := wakes), running) == FirstPolls(v, running)
  {
  }

  /** A wake taken off the queue for a task that is not blocked. */
  lemma DropWake(v: View)
    requires Inv(v, None) && v.wakes != [] && v.wakes[0] !in v.blocked
    ensures Inv(v.(wakes := v.wakes[1..]), None)
  {
    hide PolledBefore, Unserved, Timed, PoppedInOrder, OnTime, Has, FirstPolls;
    var v' := v.(wakes := v.wakes[1..]);
    WakesAside(v, None, v'.wakes);
    var h := v.wakes[0];
    assert forall w: nat {:trigger Places(v', None, w)} :: Places(v', None, w) == Places(v, None, w);
    forall w: nat | Unserved(v.trace, w)
      ensures Done(v.trace, w) || Has(v.events, w) || Has(v.sleeps, w) || w in v'.wakes
    {
      if w == h {
        assert Places(v, None, w) == Bit(w < v.next);
      }
    }
  }

  lemma SwapRemovedMembers(s: seq<Task>, i: nat)
    requires i < |s| && NoDuplicates(s)
    ensures var r := SwapRemoved(s, i);
            && NoDuplicates(r)
            && (forall t :: t in r ==> t in s)
            && (forall w: nat :: Has(r, w) <==> Has(s, w) && w != s[i].sequence)
  {
    var r := SwapRemoved(s, i);
    forall w: nat | Has(s, w) && w != s[i].sequence
      ensures Has(r, w)
    {
      var k :| 0 <= k < |s| && s[k].sequence == w;
      var k' := if k == |s| - 1 then i else k;
      assert r[k'] == s[k];
    }
    forall k | 0 <= k < |r|
      ensures r[k] in s && r[k].sequence != s[i].sequence
    {
    }
  }

  /** A woken task leaves `blocked` for `events`. */
  lemma UnblockPlaces(v: View)
    requires Placed(v, None) && v.wakes != [] && v.wakes[0] in v.blocked
    ensures Placed(Unblocked(v), None)
  {
    hide Has, Done;
    var h := v.wakes[0];
    var v' := Unblocked(v);
    forall w: nat
      ensures Places(v', None, w) == Bit(w < v'.next)
    {
      assert Places(v, None, w) == Bit(w < v.next);
      HasAppend(v.events, v.blocked[h], w);
    }
    forall i | 0 <= i < |v.events|
      ensures v.events[i].sequence != h
    {
      assert Places(v, None, h) == Bit(h < v.next);
      HasMember(v.events, i);
    }
  }

  lemma UnblockKeepsInv(v: View)
    requires Inv(v, None) && v.wakes != []
    ensures Inv(Unblocked(v), None)
  {
    hide Placed, PolledBefore, Unserved, Ascending, PoppedInOrder, OnTime, Has, Done;
    if v.wakes[0] !in v.blocked {
      DropWake(v);
    } else {
      UnblockPlaces(v);
      var t := v.blocked[v.wakes[0]];
      assert t.sequence == v.wakes[0] by {
        BlockedKey(v, None, v.wakes[0]);
      }
      forall w: nat
        ensures Has(v.events + [t], w) <==> Has(v.events, w) || w == t.sequence
      {
        HasAppend(v.events, t, w);
      }
    }
  }

  lemma BlockedKey(v: View, running: Option<Task>, w: nat)
    requires Placed(v, running) && w in v.blocked
    ensures v.blocked[w].sequence == w
  {
  }

  // ---- polling ----

  lemma PollRecord(trace: seq<Event>, e: Event)
    requires PoppedInOrder(trace) && OnTime(trace) && e.Polled?
    requires IsPop(e) ==> forall x :: x in trace && IsPop(x) ==> Before(x.task, e.task)
    requires e.task.target.Some? && !PolledBefore(trace, e.task.sequence) ==> e.time == e.task.target.value
    ensures PoppedInOrder(trace + [e]) && OnTime(trace + [e])
  {
    hide PolledBefore;
    var trace' := trace + [e];
    forall i | 0 <= i < |trace'|
      ensures trace'[..i] == if i < |trace| then trace[..i] else trace
    {
    }
  }

  lemma PollWakes(v: View, v': View, e: Event)
    requires WakesKept(v) && e.Polled? && v'.trace == v.trace + [e] && v'.wakes == v.wakes && v'.next == v.next
    requires forall w: nat :: w != e.task.sequence ==>
        (Has(v.events, w) ==> Has(v'.events, w)) && (Has(v.sleeps, w) ==> Has(v'.sleeps, w))
    ensures WakesKept(v')
  {
    hide PolledBefore, Unserved, Has;
    TraceAppend(v.trace, e);
  }

  lemma PollPlaces(v: View, v': View, t: Task, e: Event)
    requires Placed(v, None) && NoDuplicates(v'.events) && NoDuplicates(v'.sleeps)
    requires v'.trace == v.trace + [e] && e.Polled? && v'.blocked == v.blocked && v'.next == v.next
    requires forall w: nat ::
        Bit(Has(v'.events, w)) + Bit(Has(v'.sleeps, w)) + Bit(w == t.sequence)
            == Bit(Has(v.events, w)) + Bit(Has(v.sleeps, w))
    ensures Placed(v', Some(t))
  {
    hide Has, NoDuplicates;
    forall w: nat
      ensures Places(v', Some(t), w) == Bit(w < v'.next)
    {
      assert Places(v, None, w) == Bit(w < v.next);
    }
  }

  lemma PollFirst(v: View, v': View, e: Event)
    requires e.Polled? && FirstPolls(v, None) && Placed(v', Some(e.task)) && v'.trace == v.trace + [e]
    requires v'.blocked == v.blocked && v'.next == v.next
    requires (forall t :: t in v'.events ==> t in v.events) && (forall t :: t in v'.sleeps ==> t in v.sleeps)
    ensures FirstPolls(v', Some(e.task))
  {
    hide PolledBefore, Unserved, Has, NoDuplicates;
    TraceAppend(v.trace, e);
    assert Places(v', Some(e.task), e.task.sequence) == Bit(e.task.sequence < v'.next);
    forall t | t in v'.sleeps
      ensures t.sequence != e.task.sequence
    {
      HasIn(v'.sleeps, t);
    }
  }

  lemma HasIn(s: seq<Task>, t: Task)
    requires t in s
    ensures Has(s, t.sequence)
  {
  }

  /** Polling a ready event at a time no sleep is due before. */
  lemma TakeEventKeepsInv(v: View, i: nat, time: nat)
    requires Inv(v, None) && i < |v.events| && v.clock <= time
    requires v.sleeps != [] ==> v.sleeps[0].target.Some? && time <= v.sleeps[0].target.value
    ensures Inv(TakeEvent(v, i, time), Some(v.events[i]))
  {
    hide PolledBefore, Unserved, Has, NoDuplicates, Done, PoppedInOrder, OnTime;
    var v', t := TakeEvent(v, i, time), v.events[i];
    var e := Polled(t, time, false);
    SwapRemovedMembers(v.events, i);
    HasMember(v.events, i);
    PollPlaces(v, v', t, e);
    PollFirst(v, v', e);
    PollWakes(v, v', e);
    PollRecord(v.trace, e);
    EventTimed(v, v', time);
  }

  lemma EventTimed(v: View, v': View, time: nat)
    requires Timed(v) && v.clock <= time && v'.clock == time && v'.sleeps == v.sleeps && v'.next == v.next
    requires v.sleeps != [] ==> v.sleeps[0].target.Some? && time <= v.sleeps[0].target.value
    requires exists e :: !IsPop(e) && v'.trace == v.trace + [e]
    ensures Timed(v')
  {
    forall t | t in v.sleeps
      ensures t.target.Some? && time <= t.target.value
    {
      var k :| 0 <= k < |v.sleeps| && v.sleeps[k] == t;
      assert k > 0 ==> Before(v.sleeps[0], v.sleeps[k]);
    }
  }

  lemma SleepsTail(s: seq<Task>)
    requires s != [] && NoDuplicates(s)
    ensures NoDuplicates(s[1..]) && (forall t :: t in s[1..] ==> t in s)
    ensures forall w: nat :: Has(s[1..], w) <==> Has(s, w) && w != s[0].sequence
  {
    assert s == [s[0]] + s[1..];
    forall w: nat | Has(s, w) && w != s[0].sequence
      ensures Has(s[1..], w)
    {
      var t :| t in s && t.sequence == w;
      assert t in s[1..];
    }
    forall t | t in s[1..]
      ensures t in s && t.sequence != s[0].sequence
    {
    }
  }

  lemma PopTimed(v: View)
    requires Timed(v) && v.sleeps != [] && v.sleeps[0].sequence < v.next
    ensures v.sleeps[0].target.Some? && Timed(TakeSleep(v)) && TakeSleep(v).clock == v.sleeps[0].target.value
  {
    var first, rest := v.sleeps[0], v.sleeps[1..];
    assert first in v.sleeps;
    forall t | t in rest
      ensures Before(first, t) && t in v.sleeps
    {
      var k :| 0 <= k < |rest| && rest[k] == t;
      assert v.sleeps[k + 1] == t;
    }
    var e := Polled(first, first.target.value, true);
    assert TakeSleep(v).trace == v.trace + [e];
  }

  /** Popping the first sleep: the clock lands exactly on its target. */
  lemma TakeSleepKeepsInv(v: View)
    requires Inv(v, None) && v.sleeps != []
    ensures v.sleeps[0].target.Some? && Inv(TakeSleep(v), Some(v.sleeps[0]))
  {
    hide PolledBefore, Unserved, Has, NoDuplicates, Done, PoppedInOrder, OnTime, Ascending;
    var t := v.sleeps[0];
    HasMember(v.sleeps, 0);
    assert Places(v, None, t.sequence) == Bit(t.sequence < v.next);
    PopTimed(v);
    var v' := TakeSleep(v);
    var e := Polled(t, v'.clock, true);
    SleepsTail(v.sleeps);
    PollPlaces(v, v', t, e);
    PollFirst(v, v', e);
    PollWakes(v, v', e);
    PollRecord(v.trace, e);
  }

  /** After the poll: pending tasks block, finished ones are gone. */
  lemma SettleKeepsInv(v: View, t: Task, pending: bool)
    requires Inv(v, Some(t))
    ensures Inv(Settle(v, t, pending), None)
  {
    hide PolledBefore, Unserved, Has, NoDuplicates, PoppedInOrder, OnTime, Timed;
    var v' := Settle(v, t, pending);
    if !pending {
      TraceAppend(v.trace, Finished(t.sequence));
      QuietAppend(v, Some(t), Finished(t.sequence));
    } else {
      BlockedAside(v, v'.blocked);
    }
    forall w: nat
      ensures Places(v', None, w) == Bit(w < v'.next)
    {
      assert Places(v, Some(t), w) == Bit(w < v.next);
    }
  }

  /** A pending task is blocked and not finished; one that is not pending is finished and not blocked. */
  lemma SettledWhere(v: View, t: Task, pending: bool)
    requires Inv(v, Some(t))
    ensures var v' := Settle(v, t, pending);
            && (pending ==> t.sequence in v'.blocked && !Done(v'.trace, t.sequence))
            && (!pending ==> t.sequence !in v'.blocked && Done(v'.trace, t.sequence))
  {
    hide Timed, PoppedInOrder, OnTime, FirstPolls, WakesKept, Has;
    assert Places(v, Some(t), t.sequence) == Bit(t.sequence < v.next);
  }

  lemma BlockedAside(v: View, blocked: map<nat, Task>)
    ensures Timed(v.(blocked := blocked)) == Timed(v)
  {
  }

  // ---- what the invariant means for the history ----

  /** A served wake was followed by a poll of its task. */
  lemma {:induction false} ServedMeansPolled(trace: seq<Event>, w: nat, i: nat)
    requires i < |trace| && trace[i] == Woke(w) && !Unserved(trace, w)
    ensures exists j :: i < j < |trace| && trace[j].Polled? && trace[j].task.sequence == w
  {
    var last := |trace| - 1;
    if !(trace[last].Polled? && trace[last].task.sequence == w) {
      ServedMeansPolled(trace[..last], w, i);
      var j :| i < j < last && trace[..last][j].Polled? && trace[..last][j].task.sequence == w;
      assert trace[j] == trace[..last][j];
    }
  }

  /** Every wake, even one raised during its task's own poll, is followed by a poll unless the task finished. */
  ghost predicate NoLostWake(trace: seq<Event>) {
    forall i :: 0 <= i < |trace| && trace[i].Woke? && !Done(trace, trace[i].id) ==>
      exists j :: i < j < |trace| && trace[j].Polled? && trace[j].task.sequence == trace[i].id
  }

  lemma EndLosesNoWake(v: View)
    requires Inv(v, None) && v.events == [] && v.sleeps == [] && v.wakes == []
    ensures NoLostWake(v.trace)
    ensures forall w: nat :: w < v.next && !Done(v.trace, w) ==> w in v.blocked && !Unserved(v.trace, w)
  {
    hide Timed, PoppedInOrder, OnTime, FirstPolls;
    forall i | 0 <= i < |v.trace| && v.trace[i].Woke? && !Done(v.trace, v.trace[i].id)
      ensures exists j :: i < j < |v.trace| && v.trace[j].Polled? && v.trace[j].task.sequence == v.trace[i].id
    {
      ServedMeansPolled(v.trace, v.trace[i].id, i);
    }
    forall w: nat | w < v.next && !Done(v.trace, w)
      ensures w in v.blocked
    {
      assert Places(v, None, w) == Bit(w < v.next);
    }
  }

  function Polls(trace: seq<Event>): nat {
    if trace == [] then 0 else Polls(trace[..|trace| - 1]) + Bit(trace[|trace| - 1].Polled?)
  }

  lemma {:induction false} PollsAppend(a: seq<Event>, b: seq<Event>)
    ensures Polls(a + b) == Polls(a) + Polls(b)
  {
    if b != [] {
      PollsAppend(a, b[..|b| - 1]);
      assert (a + b)[..|a + b| - 1] == a + b[..|b| - 1];
    } else {
      assert a + b == a;
    }
  }

  lemma PollCounts(trace: seq<Event>, t: Task, time: nat, popped: bool)
    ensures Polls(trace + [Polled(t, time, popped)]) == Polls(trace) + 1
  {
    PollsAppend(trace, [Polled(t, time, popped)]);
    assert [Polled(t, time, popped)][..0] == [];
  }

  lemma WakeIsNoPoll(trace: seq<Event>, w: nat)
    ensures Polls(trace + [Woke(w)]) == Polls(trace)
  {
    PollsAppend(trace, [Woke(w)]);
  }

  lemma FinishIsNoPoll(trace: seq<Event>, w: nat)
    ensures Polls(trace + [Finished(w)]) == Polls(trace)
  {
    PollsAppend(trace, [Finished(w)]);
  }

  ghost predicate Extends(trace: seq<Event>, before: seq<Event>) {
    |before| <= |trace| && trace[..|before|] == before
  }

  lemma AfterNone(v: View, jitters: nat -> nat, choices: nat -> nat, outcomes: nat -> PollOutcome)
    ensures After(v, jitters, choices, outcomes, 0) == v
  {
  }

  lemma AfterOne(v: View, jitters: nat -> nat, choices: nat -> nat, outcomes: nat -> PollOutcome, n: nat)
    ensures After(v, jitters, choices, outcomes, n + 1) ==
            Iterated(Served(After(v, jitters, choices, outcomes, n)), jitters(n), choices(n), outcomes(n))
  {
  }

  lemma ExtendsSelf(trace: seq<Event>)
    ensures Extends(trace, trace)
  {
  }

  lemma ExtendsChain(trace: seq<Event>, middle: seq<Event>, before: seq<Event>, e: Event)
    requires Extends(trace, middle) && Extends(middle, before)
    ensures Extends(trace, before) && Extends(trace + [e], before)
  {
  }

  class DeterministicExecutor {
    var events: seq<Task>
    var sleeps: seq<Task>
    var blocked: map<nat, Task>
    var wakes: seq<nat>
    var clock: nat
    var nextSequence: nat
    ghost var trace: seq<Event>

    ghost function Now(): View
      reads this
    {
      View(events, sleeps, blocked, wakes, clock, nextSequence, trace)
    }

    /** Between iterations nothing is running. */
    ghost predicate Valid()
      reads this
    {
      Inv(Now(), None)
    }

    constructor ()
      ensures Valid() && Now() == View([], [], map[], [], 0, 0, [])
    {
      events, sleeps, blocked, wakes, clock, nextSequence, trace := [], [], map[], [], 0, 0, [];
    }

    method SpawnNamed(ghost running: Option<Task>)
      requires Inv(Now(), running)
      modifies this`events, this`nextSequence
      ensures Inv(Now(), running) && Now() == Spawned(old(Now()))
    {
      hide Inv;
      SpawnKeepsInv(Now(), running);
      events := events + [Task(nextSequence, None)];
      nextSequence := nextSequence + 1;
    }

    method SpawnAfter(duration: nat, ghost running: Option<Task>)
      requires Inv(Now(), running)
      modifies this`sleeps, this`nextSequence
      ensures Inv(Now(), running) && Now() == SpawnedAfter(old(Now()), duration)
    {
      hide Inv, Push;
      SleepKeepsInv(Now(), running, duration);
      sleeps := Push(sleeps, Task(nextSequence, Some(clock + duration)));
      nextSequence := nextSequence + 1;
    }

    /** `SimulatorWaker::wake_by_ref`; wakers exist only for spawned tasks. */
    method WakeByRef(w: nat, ghost running: Option<Task>)
      requires Inv(Now(), running) && w < nextSequence
      modifies this`wakes, this`trace
      ensures Inv(Now(), running) && Now() == Woken(old(Now()), w)
    {
      hide Inv;
      WakeKeepsInv(Now(), running, w);
      wakes := wakes + [w];
      trace := trace + [Woke(w)];
    }

    /** What the polled future does before it returns. */
    method Perform(effects: seq<Effect>, ghost running: Option<Task>)
      requires Inv(Now(), running)
      modifies this`events, this`sleeps, this`nextSequence, this`wakes, this`trace
      ensures Inv(Now(), running) && Extends(trace, old(trace)) && Polls(trace) == Polls(old(trace))
      ensures Now() == Performed(old(Now()), effects, |effects|)
    {
      hide Inv, Polls, Push;
      for i := 0 to |effects|
        invariant Inv(Now(), running) && Extends(trace, old(trace)) && Polls(trace) == Polls(old(trace))
        invariant Now() == Performed(old(Now()), effects, i)
      {
        match effects[i] {
          case Spawn => SpawnNamed(running);
          case Sleep(duration) => SpawnAfter(duration, running);
          case Wake(w) =>
            if w < nextSequence {
              WakeIsNoPoll(trace, w);
              WakeByRef(w, running);
            }
        }
      }
    }

    /** The wake loop: every queued wake moves its task from blocked to events, if it is there. */
    method ProcessWakes()
      requires Valid()
      modifies this`wakes, this`blocked, this`events
      ensures Valid() && wakes == [] && Now() == Served(old(Now()))
      ensures forall w :: w in blocked <==> w in old(blocked) && w !in old(wakes)
    {
      hide Inv;
      var toWake := wakes;
      wakes := [];
      for i := 0 to |toWake|
        invariant wakes == []
        invariant forall w :: w in blocked <==> w in old(blocked) && w !in toWake[..i]
        invariant Inv(Now().(wakes := toWake[i..]), None)
        invariant Served(Now().(wakes := toWake[i..])) == Served(old(Now()))
      {
        ghost var v := Now().(wakes := toWake[i..]);
        UnblockKeepsInv(v);
        assert toWake[i..][1..] == toWake[i + 1..];
        var w := toWake[i];
        if w in blocked {
          events := events + [blocked[w]];
          blocked := blocked - {w};
        }
        assert Now().(wakes := toWake[i + 1..]) == Unblocked(v);
      }
      assert Now() == Now().(wakes := toWake[|toWake|..]);
    }

    /** Selection: the first sleep if it is due strictly before the next event, else a random event. */
    method TakeNext(jitter: nat, choice: nat) returns (task: Task)
      requires Valid() && (events != [] || sleeps != [])
      modifies this`events, this`sleeps, this`clock, this`trace
      ensures Inv(Now(), Some(task)) && Extends(trace, old(trace)) && Polls(trace) == Polls(old(trace)) + 1
      ensures var v := old(Now());
              && (SleepFirst(v, jitter) <==>
                    v.sleeps != [] && v.sleeps[0].target.Some?
                    && (v.events == [] || v.sleeps[0].target.value < v.clock + jitter))
              && (SleepFirst(v, jitter) ==> task == v.sleeps[0] && Now() == TakeSleep(v))
              && (!SleepFirst(v, jitter) ==>
                  |v.events| > 0 && task == v.events[choice % |v.events|]
                  && Now() == TakeEvent(v, choice % |v.events|, v.clock + jitter)
                  && |events| == |v.events| - 1
                  && forall k :: 0 <= k < |events| ==>
                     events[k] == v.events[if k == choice % |v.events| then |v.events| - 1 else k])
    {
      hide Placed, PoppedInOrder, OnTime, FirstPolls, WakesKept, Polls;
      var eventTime := clock + jitter;
      assert sleeps != [] ==> sleeps[0] in sleeps;
      if sleeps != [] && (events == [] || sleeps[0].target.value < eventTime) {
        TakeSleepKeepsInv(Now());
        task := sleeps[0];
        sleeps := sleeps[1..];
        clock := Advanced(clock, task.target.value);
        PollCounts(trace, task, clock, true);
        trace := trace + [Polled(task, clock, true)];
      } else {
        var index := choice % |events|;
        TakeEventKeepsInv(Now(), index, eventTime);
        task := events[index];
        events := SwapRemoved(events, index);
        clock := Advanced(clock, eventTime);
        PollCounts(trace, task, clock, false);
        trace := trace + [Polled(task, clock, false)];
      }
    }

    /** The rest of an iteration: select, advance the clock, poll, and put the task away. */
    method PollOne(jitter: nat, choice: nat, outcome: PollOutcome) returns (task: Task)
      requires Valid() && (events != [] || sleeps != [])
      modifies this
      ensures Valid() && Extends(trace, old(trace)) && Polls(trace) == Polls(old(trace)) + 1
      ensures Now() == Iterated(old(Now()), jitter, choice, outcome)
      ensures outcome.pending ==> task.sequence in blocked && !Done(trace, task.sequence)
      ensures !outcome.pending ==> task.sequence !in blocked && Done(trace, task.sequence)
    {
      hide Inv, Polls, TakeSleep, TakeEvent, SwapRemoved, Advanced, Extends, Performed, Done;
      task := TakeNext(jitter, choice);
      ghost var taken := trace;
      Perform(outcome.effects, Some(task));
      ExtendsChain(trace, taken, old(trace), Finished(task.sequence));
      SettleKeepsInv(Now(), task, outcome.pending);
      SettledWhere(Now(), task, outcome.pending);
      if outcome.pending {
        blocked := blocked[task.sequence := task];
      } else {
        FinishIsNoPoll(trace, task.sequence);
        trace := trace + [Finished(task.sequence)];
      }
    }

    /** `run`, for any jitter draws, event choices and poll outcomes of its iterations. */
    method Run(jitters: nat -> nat, choices: nat -> nat, outcomes: nat -> PollOutcome) returns (r: RunResult)
      requires Valid()
      modifies this
      ensures Valid() && Extends(trace, old(trace))
      ensures r.Stats? ==> events == [] && sleeps == [] && NoLostWake(trace)
      ensures r.Stats? ==> forall w: nat :: w < nextSequence && !Done(trace, w) ==> w in blocked && !Unserved(trace, w)
      ensures r.Stats? ==>
          Polls(trace) == Polls(old(trace)) + r.polls && r.polls <= MAX_ITERATIONS
          && r.totalEvents == nextSequence && r.finalBlocked == |blocked|
      ensures r.IterationLimit? ==> Polls(trace) - Polls(old(trace)) == MAX_ITERATIONS
      ensures r.Stats? ==> Now() == Served(After(old(Now()), jitters, choices, outcomes, r.polls))
      ensures r.IterationLimit? ==> Now() == After(old(Now()), jitters, choices, outcomes, MAX_ITERATIONS)
    {
      hide Inv, Done, Unserved, NoLostWake, Iterated, Served, Polls, Extends, After;
      ExtendsSelf(trace);
      AfterNone(Now(), jitters, choices, outcomes);
      var iterations: nat := 0;
      while true
        invariant Valid() && Extends(trace, old(trace))
        invariant Polls(trace) == Polls(old(trace)) + iterations && iterations <= MAX_ITERATIONS
        invariant Now() == After(old(Now()), jitters, choices, outcomes, iterations)
        decreases MAX_ITERATIONS - iterations
      {
        if iterations >= MAX_ITERATIONS {
          return IterationLimit;
        }
        ProcessWakes();
        if events == [] && sleeps == [] {
          break;
        }
        ghost var before := trace;
        var _ := PollOne(jitters(iterations), choices(iterations), outcomes(iterations));
        ExtendsChain(trace, before, old(trace), Finished(0));
        AfterOne(old(Now()), jitters, choices, outcomes, iterations);
        iterations := iterations + 1;
      }
      EndLosesNoWake(Now());
      return Stats(iterations, nextSequence, |blocked|);
    }
  }
}

/** What a replay of the commit service's log means, read off the log: which policy batches are adopted, the
    version and kind they put in force, and which intention waits for a vote. */
module CommitPolicy {
  import opened Bus
  import opened CommitService

  // ---- adoption ----

  /** The batch at k expects the version reached before it and brings a newer one. */
  predicate Adopts(log: seq<Payload>, k: nat)
    requires k < |log|
  {
    && log[k].PolicyBatch?
    && match VersionAfter(log, k)
       case None => log[k].expected == None
       case Some(v) => log[k].expected == Some(v) && log[k].newVersion > v
  }

  /** The version in force is that of the last batch adopted; there is none before the first. */
  lemma {:induction false} VersionMeaning(log: seq<Payload>, n: nat)
    requires n <= |log|
    ensures VersionAfter(log, n) == None <==> forall j :: 0 <= j < n ==> !Adopts(log, j)
    ensures VersionAfter(log, n).Some? ==>
              exists k :: 0 <= k < n && Adopts(log, k) && VersionAfter(log, n) == Some(log[k].newVersion)
                       && forall j :: k < j < n ==> !Adopts(log, j)
  {
    if n > 0 {
      VersionMeaning(log, n - 1);
      if Adopts(log, n - 1) {
        assert VersionAfter(log, n) == Some(log[n - 1].newVersion);
      } else if VersionAfter(log, n - 1).Some? {
        var k :| 0 <= k < n - 1 && Adopts(log, k) && VersionAfter(log, n - 1) == Some(log[k].newVersion)
               && forall j :: k < j < n - 1 ==> !Adopts(log, j);
        assert 0 <= k < n;
      }
    }
  }

  /** The kind of policy in force: the one the last adopted batch that carries one set, on-by-default before. */
  function KindAfter(log: seq<Payload>, n: nat): (kind: int)
    requires n <= |log|
    ensures || (kind == ON_BY_DEFAULT && forall j :: 0 <= j < n ==> !SetsKind(log, j))
            || (exists k :: 0 <= k < n && SetsKind(log, k) && log[k].deciderPolicy == Some(kind)
                         && forall j :: k < j < n ==> !SetsKind(log, j))
  {
    if n == 0 then ON_BY_DEFAULT
    else if SetsKind(log, n - 1) then log[n - 1].deciderPolicy.value
    else KindAfter(log, n - 1)
  }

  predicate SetsKind(log: seq<Payload>, k: nat)
    requires k < |log|
  {
    Adopts(log, k) && log[k].deciderPolicy.Some?
  }

  lemma {:induction false} FoldKind(log: seq<Payload>, n: nat)
    requires n <= |log| && Fold(log, n).Some?
    ensures Fold(log, n).value.Kind() == KindAfter(log, n)
  {
    if n > 0 {
      FoldKind(log, n - 1);
      FoldVersion(log, n - 1);
    }
  }

  /** A replay fails exactly at an adopted batch whose policy is none of the three known ones. */
  lemma {:induction false} FoldFailsIff(log: seq<Payload>, n: nat)
    requires n <= |log|
    ensures Fold(log, n).None? <==>
            exists k :: 0 <= k < n && SetsKind(log, k) && log[k].deciderPolicy.value !in {0, 1, 2}
  {
    if n > 0 {
      FoldFailsIff(log, n - 1);
      if Fold(log, n - 1).Some? {
        FoldVersion(log, n - 1);
      }
    }
  }

  lemma {:induction false} KindOfPrefix(log: seq<Payload>, more: seq<Payload>, n: nat)
    requires n <= |log|
    ensures KindAfter(log + more, n) == KindAfter(log, n)
  {
    if n > 0 {
      KindOfPrefix(log, more, n - 1);
      VersionOfPrefix(log, more, n - 1);
    }
  }

  // ---- intentions ----

  /** The constraint of the intention at p against the version in force there. */
  predicate ConstraintMet(log: seq<Payload>, p: nat)
    requires p < |log| && log[p].Intention?
  {
    match log[p].constraint
    case Unconstrained => true
    case Required(v) => VersionAfter(log, p) == Some(v)
    case Minimum(v) => VersionAfter(log, p).Some? && v <= VersionAfter(log, p).value
  }

  /** The intention at p was met by a policy that waits for a vote. */
  predicate Held(log: seq<Payload>, p: nat)
    requires p < |log|
  {
    && log[p].Intention? && ConstraintMet(log, p)
    && KindAfter(log, p) != ON_BY_DEFAULT && KindAfter(log, p) != OFF_BY_DEFAULT
  }

  /** The entry at j ends the wait of the intention at p: a decision of it, a boolean vote for it, a later
      held intention, or an adopted batch that sets a policy. */
  predicate EndsWait(log: seq<Payload>, j: nat, p: int)
    requires j < |log|
  {
    || (log[j].Commit? && log[j].committed == p)
    || (log[j].Abort? && log[j].aborted == p)
    || (log[j].Vote? && log[j].voteFor == p && log[j].ballot.Some?)
    || Held(log, j)
    || SetsKind(log, j)
  }

  ghost predicate Waiting(log: seq<Payload>, n: nat, p: int)
    requires n <= |log|
  {
    0 <= p < n && Held(log, p) && forall j :: p < j < n ==> !EndsWait(log, j, p)
  }

  /** What processing an entry does to the pending intention. */
  lemma PendingStep(st: ReplayState, log: seq<Payload>, n: nat, p: int)
    requires n < |log| && ProcessEntry(st, log[n], n).Accepted?
    requires st.Version() == VersionAfter(log, n) && st.Kind() == KindAfter(log, n)
    ensures ProcessEntry(st, log[n], n).state.pending == Some(p) <==>
            (p == n && Held(log, n)) || (st.pending == Some(p) && !EndsWait(log, n, p))
  {
    hide VersionAfter, KindAfter;
  }

  /** The fold holds p pending exactly while p waits. */
  lemma {:induction false} PendingMeaning(log: seq<Payload>, n: nat, p: int)
    requires n <= |log| && Fold(log, n).Some?
    ensures Fold(log, n).value.pending == Some(p) <==> Waiting(log, n, p)
  {
    hide ProcessEntry, Held, EndsWait;
    if n > 0 {
      PendingMeaning(log, n - 1, p);
      FoldKind(log, n - 1);
      FoldVersion(log, n - 1);
      PendingStep(Fold(log, n - 1).value, log, n - 1, p);
      if Waiting(log, n - 1, p) && !EndsWait(log, n - 1, p) {
        assert Waiting(log, n, p);
      }
      if Waiting(log, n - 1, p) {
        assert p != n - 1;
      }
    }
  }

  // ---- decisions, spelled out ----

  /** The reasons callers see. */
  lemma ReasonTexts()
    ensures CONSTRAINT_REASON == "policy version constraint not satisfied"
    ensures APPROVED_REASON == "approved: ON_BY_DEFAULT policy; in-memory service does not run voters"
    ensures DENIED_REASON == "denied: OFF_BY_DEFAULT policy; in-memory service does not run voters"
    ensures DRAIN_REASON == "no decision before the log was drained"
  {
  }

  /** The decision a policy of this kind gives an intention at once; none when it is held for a vote. */
  function ByKind(met: bool, kind: int, p: nat): Option<Payload> {
    if !met then Some(Abort(p, CONSTRAINT_REASON))
    else if kind == ON_BY_DEFAULT then Some(Commit(p, APPROVED_REASON))
    else if kind == OFF_BY_DEFAULT then Some(Abort(p, DENIED_REASON))
    else None
  }

  /** The decision the intention at p gets at once, from the version and the kind in force there. */
  function AtOnce(log: seq<Payload>, p: nat): Option<Payload>
    requires p < |log| && log[p].Intention?
  {
    ByKind(ConstraintMet(log, p), KindAfter(log, p), p)
  }

  lemma HeldIff(log: seq<Payload>, p: nat)
    requires p < |log| && log[p].Intention?
    ensures AtOnce(log, p).None? <==> Held(log, p)
  {
    hide KindAfter, ConstraintMet;
  }

  /** What a replay decides at the intention at p. */
  lemma DecisionAtIntention(log: seq<Payload>, p: nat)
    requires p < |log| && log[p].Intention? && Fold(log, p).Some?
    ensures ProcessEntry(Fold(log, p).value, log[p], p).Accepted?
    ensures ProcessEntry(Fold(log, p).value, log[p], p).output == AtOnce(log, p)
  {
    hide Fold, KindAfter, VersionAfter;
    FoldKind(log, p);
    FoldVersion(log, p);
  }

  /** What a replay decides at any other entry: at a boolean vote for the waiting intention, as it says. */
  lemma DecisionElsewhere(log: seq<Payload>, k: nat)
    requires k < |log| && !log[k].Intention? && Fold(log, k + 1).Some?
    ensures Fold(log, k).Some? && ProcessEntry(Fold(log, k).value, log[k], k).Accepted?
    ensures ProcessEntry(Fold(log, k).value, log[k], k).output ==
            if !(log[k].Vote? && log[k].ballot.Some? && Waiting(log, k, log[k].voteFor)) then None
            else
              var reason := if log[k].voteReason == "" then "decided by policy" else log[k].voteReason;
              if log[k].ballot.value then Some(Commit(log[k].voteFor, reason)) else Some(Abort(log[k].voteFor, reason))
  {
    hide Waiting;
    if log[k].Vote? {
      PendingMeaning(log, k, log[k].voteFor);
    }
  }

  // ---- prefixes and reconciles ----

  lemma HeldOfPrefix(log: seq<Payload>, more: seq<Payload>, p: nat)
    requires p < |log|
    ensures Held(log + more, p) == Held(log, p)
  {
    hide KindAfter, VersionAfter;
    VersionOfPrefix(log, more, p);
    KindOfPrefix(log, more, p);
  }

  lemma AdoptsOfPrefix(log: seq<Payload>, more: seq<Payload>, p: nat)
    requires p < |log| && log[p].Intention?
    ensures ConstraintMet(log + more, p) == ConstraintMet(log, p) && AtOnce(log + more, p) == AtOnce(log, p)
  {
    hide KindAfter, VersionAfter, ByKind;
    VersionOfPrefix(log, more, p);
    KindOfPrefix(log, more, p);
  }

  /** After a reconcile: its batch sets the kind exactly when the cache was right and its version is newer. */
  lemma ReconciledKind(log: seq<Payload>, cached: Option<int>, version: int, raw: Option<int>)
    ensures var log' := Reconciled(log, cached, version, raw);
            KindAfter(log', |log'|) ==
            if cached == VersionAfter(log, |log|) && (cached.None? || version > cached.value)
                && raw.Some? then raw.value
            else KindAfter(log, |log|)
  {
    var more := [PolicyBatch(cached, version, raw)];
    VersionOfPrefix(log, more, |log|);
    KindOfPrefix(log, more, |log|);
  }
}
